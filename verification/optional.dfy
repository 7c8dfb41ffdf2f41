/** The usual optional value, shared by every module of the model. */
module Optional {

  datatype Option<T> = None | Some(value: T)
}
