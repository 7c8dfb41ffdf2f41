/**
  The closed enumeration of the backend's logical column types and the
  classification predicates declared beside it: which types are strings,
  objects, decimal-v3, binary, enumerations, scalar primitives, which can
  carry a zone map, which a decimal is stored as (its delegate), and which
  pairs of types are interchangeable.
 */
module LogicalTypes {

  import opened Optional

  /** One constructor per enumerator, in declaration order. */
  datatype LogicalType =
    | TypeUnknown
    | TypeTinyInt
    | TypeUnsignedTinyInt
    | TypeSmallInt
    | TypeUnsignedSmallInt
    | TypeInt
    | TypeUnsignedInt
    | TypeBigInt
    | TypeUnsignedBigInt
    | TypeLargeInt
    | TypeFloat
    | TypeDouble
    | TypeDiscreteDouble
    | TypeChar
    | TypeDateV1
    | TypeDatetimeV1
    | TypeDecimal
    | TypeVarchar
    | TypeStruct
    | TypeArray
    | TypeMap
    | TypeNone
    | TypeHll
    | TypeBoolean
    | TypeObject
    | TypeNull
    | TypeFunction
    | TypeTime
    | TypeBinary
    | TypeVarbinary
    | TypeDecimal32
    | TypeDecimal64
    | TypeDecimal128
    | TypeDate
    | TypeDatetime
    | TypeDecimalV2
    | TypePercentile
    | TypeJson
    | TypeMaxValue

  /** The bound that sizes fixed-size tables indexed by type. */
  const MaxValue: nat := 55

  /** The numeric value the enumeration assigns to each enumerator. */
  function Value(t: LogicalType): nat {
    match t
    case TypeUnknown => 0
    case TypeTinyInt => 1
    case TypeUnsignedTinyInt => 2
    case TypeSmallInt => 3
    case TypeUnsignedSmallInt => 4
    case TypeInt => 5
    case TypeUnsignedInt => 6
    case TypeBigInt => 7
    case TypeUnsignedBigInt => 8
    case TypeLargeInt => 9
    case TypeFloat => 10
    case TypeDouble => 11
    case TypeDiscreteDouble => 12
    case TypeChar => 13
    case TypeDateV1 => 14
    case TypeDatetimeV1 => 15
    case TypeDecimal => 16
    case TypeVarchar => 17
    case TypeStruct => 18
    case TypeArray => 19
    case TypeMap => 20
    case TypeNone => 22
    case TypeHll => 23
    case TypeBoolean => 24
    case TypeObject => 25
    case TypeNull => 42
    case TypeFunction => 43
    case TypeTime => 44
    case TypeBinary => 45
    case TypeVarbinary => 46
    case TypeDecimal32 => 47
    case TypeDecimal64 => 48
    case TypeDecimal128 => 49
    case TypeDate => 50
    case TypeDatetime => 51
    case TypeDecimalV2 => 52
    case TypePercentile => 53
    case TypeJson => 54
    case TypeMaxValue => 55
  }

  /** The enumerator with numeric value n, if there is one (21 and 26..41 are unused). */
  function FromValue(n: int): Option<LogicalType> {
    match n
    case 0 => Some(TypeUnknown)
    case 1 => Some(TypeTinyInt)
    case 2 => Some(TypeUnsignedTinyInt)
    case 3 => Some(TypeSmallInt)
    case 4 => Some(TypeUnsignedSmallInt)
    case 5 => Some(TypeInt)
    case 6 => Some(TypeUnsignedInt)
    case 7 => Some(TypeBigInt)
    case 8 => Some(TypeUnsignedBigInt)
    case 9 => Some(TypeLargeInt)
    case 10 => Some(TypeFloat)
    case 11 => Some(TypeDouble)
    case 12 => Some(TypeDiscreteDouble)
    case 13 => Some(TypeChar)
    case 14 => Some(TypeDateV1)
    case 15 => Some(TypeDatetimeV1)
    case 16 => Some(TypeDecimal)
    case 17 => Some(TypeVarchar)
    case 18 => Some(TypeStruct)
    case 19 => Some(TypeArray)
    case 20 => Some(TypeMap)
    case 22 => Some(TypeNone)
    case 23 => Some(TypeHll)
    case 24 => Some(TypeBoolean)
    case 25 => Some(TypeObject)
    case 42 => Some(TypeNull)
    case 43 => Some(TypeFunction)
    case 44 => Some(TypeTime)
    case 45 => Some(TypeBinary)
    case 46 => Some(TypeVarbinary)
    case 47 => Some(TypeDecimal32)
    case 48 => Some(TypeDecimal64)
    case 49 => Some(TypeDecimal128)
    case 50 => Some(TypeDate)
    case 51 => Some(TypeDatetime)
    case 52 => Some(TypeDecimalV2)
    case 53 => Some(TypePercentile)
    case 54 => Some(TypeJson)
    case 55 => Some(TypeMaxValue)
    case _ => None
  }

  /** Every enumerator other than the sentinel is below the sentinel's value. */
  lemma ValueBelowMax(t: LogicalType)
    ensures t != TypeMaxValue ==> Value(t) < MaxValue
    ensures Value(TypeMaxValue) == MaxValue
  {
  }

  /** Decoding an enumerator's value gives the enumerator back. */
  lemma ValueRoundTrip(t: LogicalType)
    ensures FromValue(Value(t)) == Some(t)
  {
  }

  /** Decoding then encoding gives the number back: a decodable number is an enumerator's value. */
  lemma FromValueRoundTrip(n: int)
    ensures FromValue(n).Some? ==> Value(FromValue(n).value) == n
    ensures FromValue(n).Some? ==> 0 <= n <= MaxValue
  {
    if FromValue(n).Some? {
      var t := FromValue(n).value;
      ValueRoundTrip(t);
      ValueBelowMax(t);
      assert FromValue(Value(t)) == FromValue(n);
    }
  }

  /** No two enumerators share a value. */
  lemma ValueInjective(s: LogicalType, t: LogicalType)
    ensures Value(s) == Value(t) ==> s == t
  {
    ValueRoundTrip(s);
    ValueRoundTrip(t);
  }

  predicate IsZoneMapKeyType(t: LogicalType) {
    t != TypeChar && t != TypeVarchar && t != TypeJson && t != TypeVarbinary &&
    t != TypeObject && t != TypeHll && t != TypePercentile
  }

  /** The type a decimal-v3 value is stored as; every other type stands for itself. */
  function DelegateType(t: LogicalType): (r: LogicalType)
    ensures IsDecimalV3FieldType(t) ==> IsEnumerationType(r) && r != t
    ensures !IsDecimalV3FieldType(t) ==> r == t
  {
    match t
    case TypeDecimal32 => TypeInt
    case TypeDecimal64 => TypeBigInt
    case TypeDecimal128 => TypeLargeInt
    case _ => t
  }

  /** The compile-time table: the primary template maps a type to itself and
      three specialisations override it. */
  const DelegateSpecialisations: map<LogicalType, LogicalType> :=
    map[TypeDecimal32 := TypeInt, TypeDecimal64 := TypeBigInt, TypeDecimal128 := TypeLargeInt]

  function DelegateTypeConstant(t: LogicalType): LogicalType {
    if t in DelegateSpecialisations then DelegateSpecialisations[t] else t
  }

  /** The run-time switch and the compile-time table agree on every type. */
  lemma DelegateTypeAgreesWithSpecialisations(t: LogicalType)
    ensures DelegateType(t) == DelegateTypeConstant(t)
  {
  }

  /** Delegating twice is delegating once. */
  lemma DelegateTypeIdempotent(t: LogicalType)
    ensures DelegateType(DelegateType(t)) == DelegateType(t)
  {
  }

  predicate IsStringType(t: LogicalType) {
    t == TypeChar || t == TypeVarchar
  }

  predicate IsObjectType(t: LogicalType) {
    t == TypeHll || t == TypeObject || t == TypeJson || t == TypePercentile
  }

  predicate IsDecimalV3FieldType(t: LogicalType) {
    t == TypeDecimal32 || t == TypeDecimal64 || t == TypeDecimal128
  }

  predicate IsBinaryType(t: LogicalType) {
    match t
    case TypeBinary | TypeVarbinary => true
    case _ => false
  }

  predicate IsEnumerationType(t: LogicalType) {
    match t
    case TypeTinyInt | TypeSmallInt | TypeInt | TypeBigInt | TypeLargeInt | TypeDate => true
    case _ => false
  }

  predicate IsTypeCompatible(lhs: LogicalType, rhs: LogicalType) {
    if lhs == TypeFunction || rhs == TypeFunction then false
    else if lhs == TypeVarchar then rhs == TypeChar || rhs == TypeVarchar || rhs == TypeHll || rhs == TypeObject
    else if lhs == TypeObject then rhs == TypeVarchar || rhs == TypeObject
    else if lhs == TypeChar || lhs == TypeHll then rhs == TypeChar || rhs == TypeVarchar || rhs == TypeHll
    else lhs == rhs
  }

  predicate IsScalarPrimitiveType(t: LogicalType) {
    match t
    case TypeBoolean | TypeTinyInt | TypeSmallInt | TypeInt | TypeBigInt | TypeLargeInt
       | TypeFloat | TypeDouble | TypeVarchar | TypeDate | TypeDatetime | TypeBinary
       | TypeVarbinary | TypeDecimal | TypeChar | TypeDecimalV2 | TypeTime
       | TypeDecimal32 | TypeDecimal64 | TypeDecimal128 | TypeJson => true
    case _ => false
  }

  /** A function-typed value is compatible with nothing, itself included. */
  lemma FunctionIsIncompatible(t: LogicalType)
    ensures !IsTypeCompatible(TypeFunction, t) && !IsTypeCompatible(t, TypeFunction)
  {
  }

  /** Compatibility does not depend on the order of the operands. */
  lemma TypeCompatibleSymmetric(lhs: LogicalType, rhs: LogicalType)
    ensures IsTypeCompatible(lhs, rhs) <==> IsTypeCompatible(rhs, lhs)
  {
    if IsTypeCompatible(lhs, rhs) {
      TypeCompatibleConverse(lhs, rhs);
    }
    if IsTypeCompatible(rhs, lhs) {
      TypeCompatibleConverse(rhs, lhs);
    }
  }

  /** One direction of symmetry, by the branch of the definition that made
      the pair compatible. */
  lemma TypeCompatibleConverse(lhs: LogicalType, rhs: LogicalType)
    requires IsTypeCompatible(lhs, rhs)
    ensures IsTypeCompatible(rhs, lhs)
  {
    if lhs == rhs {
    } else if lhs == TypeVarchar {
    } else if lhs == TypeObject {
    } else if lhs == TypeChar {
    } else if lhs == TypeHll {
    }
  }

  lemma TypeCompatibleAcrossFamilyBoundary(lhs: LogicalType, rhs: LogicalType)
    requires InStringFamily(lhs) != InStringFamily(rhs)
    ensures !IsTypeCompatible(lhs, rhs)
  {
    if !InStringFamily(lhs) {
      TypeCompatibleIsEqualityOutsideStringFamily(lhs, rhs);
    }
  }

  /** Every type except the function type is compatible with itself. */
  lemma TypeCompatibleReflexive(t: LogicalType)
    ensures IsTypeCompatible(t, t) <==> t != TypeFunction
  {
  }

  /** The types compatibility treats specially: the strings and the two
      object types that are stored as strings. */
  predicate InStringFamily(t: LogicalType) {
    t == TypeVarchar || t == TypeChar || t == TypeHll || t == TypeObject
  }

  /** Outside the string/object family, compatibility is plain equality. */
  lemma TypeCompatibleIsEqualityOutsideStringFamily(lhs: LogicalType, rhs: LogicalType)
    requires !InStringFamily(lhs)
    ensures IsTypeCompatible(lhs, rhs) <==> lhs == rhs && lhs != TypeFunction
  {
  }

  /** Inside the family: CHAR, VARCHAR and HLL are mutually compatible, OBJECT
      only with VARCHAR and itself; so compatibility is not transitive. */
  lemma TypeCompatibleNotTransitive()
    ensures IsTypeCompatible(TypeHll, TypeVarchar) && IsTypeCompatible(TypeVarchar, TypeObject)
    ensures !IsTypeCompatible(TypeHll, TypeObject)
  {
  }

  /** Zone maps are kept exactly for the types that are neither strings, nor
      objects, nor VARBINARY (BINARY keeps one). */
  lemma ZoneMapKeyCharacterisation(t: LogicalType)
    ensures IsZoneMapKeyType(t) <==> !IsStringType(t) && !IsObjectType(t) && t != TypeVarbinary
    ensures IsZoneMapKeyType(TypeBinary) && !IsZoneMapKeyType(TypeVarbinary)
  {
  }

  /** String and object types are disjoint families. */
  lemma StringAndObjectDisjoint(t: LogicalType)
    ensures !(IsStringType(t) && IsObjectType(t))
  {
  }

  /** A decimal-v3 type is a scalar primitive, and what it delegates to is an
      enumeration type that is a scalar primitive too. */
  lemma DecimalV3Classification(t: LogicalType)
    requires IsDecimalV3FieldType(t)
    ensures IsScalarPrimitiveType(t)
    ensures IsEnumerationType(DelegateType(t)) && IsScalarPrimitiveType(DelegateType(t))
    ensures !IsDecimalV3FieldType(DelegateType(t))
  {
  }

  /** The binary types are scalar primitives and are not strings. */
  lemma BinaryClassification(t: LogicalType)
    ensures IsBinaryType(t) <==> Value(t) == 45 || Value(t) == 46
    ensures IsBinaryType(t) ==> IsScalarPrimitiveType(t) && !IsStringType(t) && !IsObjectType(t)
  {
    ValueBelowMax(t);
  }

  /** Every enumeration type is a scalar primitive and a zone-map key type. */
  lemma EnumerationIsScalarPrimitive(t: LogicalType)
    ensures IsEnumerationType(t) ==> IsScalarPrimitiveType(t) && IsZoneMapKeyType(t)
  {
  }
}
