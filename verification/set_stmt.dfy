/**
  The routing decisions of a SET statement: whether its text must be
  encrypted in the audit log, and whether the frontend that received it must
  forward it to the leader and wait for the change to be synchronised.
 */
module SetStmts {

  import opened Optional

  /** The scope a variable assignment is made in. */
  datatype SetType = Default | Global | Session | User

  /** One assignment of the statement; isPassVar holds when it is a password
      assignment (its run-time class is the password variant). */
  datatype SetVar = SetVar(isPassVar: bool, setType: SetType)

  datatype RedirectStatus = NoForward | ForwardWithSync

  /** The list may be absent: None stands for a null list. */
  datatype SetStmt = SetStmt(setVars: Option<seq<SetVar>>)

  /** Scan from the front, stopping at the first password assignment. */
  function NeedAuditEncryption(setVars: seq<SetVar>): (r: bool)
    ensures r <==> exists i :: 0 <= i < |setVars| && setVars[i].isPassVar
  {
    if setVars == [] then false
    else if setVars[0].isPassVar then true
    else
      var rest := NeedAuditEncryption(setVars[1..]);
      assert forall i :: 0 < i < |setVars| ==> setVars[i] == setVars[1..][i - 1];
      rest
  }

  /** The audit decision on a whole statement: the scan's answer, or the
      NullPointerException the scan raises on a null list. */
  datatype AuditDecision = Decided(encrypt: bool) | NullPointerException

  /** Unlike the forwarding decision, the audit decision does not check the
      list for null before scanning it. */
  function StatementNeedsAuditEncryption(stmt: SetStmt): (r: AuditDecision)
    ensures r == NullPointerException <==> stmt.setVars.None?
    ensures stmt.setVars.Some? ==>
      (r == Decided(true) <==> exists i :: 0 <= i < |stmt.setVars.value| && stmt.setVars.value[i].isPassVar)
  {
    match stmt.setVars
    case None => NullPointerException
    case Some(vs) => Decided(NeedAuditEncryption(vs))
  }

  /** Scan from the front, stopping at the first assignment that is a
      password or is made in the global scope. */
  function RedirectOf(setVars: seq<SetVar>): (r: RedirectStatus)
    ensures r == ForwardWithSync <==>
      exists i :: 0 <= i < |setVars| && (setVars[i].isPassVar || setVars[i].setType == Global)
  {
    if setVars == [] then NoForward
    else if setVars[0].isPassVar then ForwardWithSync
    else if setVars[0].setType == Global then ForwardWithSync
    else
      var rest := RedirectOf(setVars[1..]);
      assert forall i :: 0 < i < |setVars| ==> setVars[i] == setVars[1..][i - 1];
      rest
  }

  /** A null list is never forwarded. */
  function GetRedirectStatus(stmt: SetStmt): (r: RedirectStatus)
    ensures stmt.setVars.None? ==> r == NoForward
    ensures stmt.setVars.Some? ==>
      (r == ForwardWithSync <==>
        exists i :: 0 <= i < |stmt.setVars.value| &&
          (stmt.setVars.value[i].isPassVar || stmt.setVars.value[i].setType == Global))
  {
    match stmt.setVars
    case None => NoForward
    case Some(vs) => RedirectOf(vs)
  }

  /** A statement whose text must be encrypted is always forwarded. */
  lemma AuditEncryptionImpliesForward(stmt: SetStmt)
    ensures StatementNeedsAuditEncryption(stmt) == Decided(true) ==> GetRedirectStatus(stmt) == ForwardWithSync
  {
  }

  /** An empty list needs no encryption and is not forwarded. */
  lemma EmptyStatement()
    ensures StatementNeedsAuditEncryption(SetStmt(Some([]))) == Decided(false)
    ensures GetRedirectStatus(SetStmt(Some([]))) == NoForward
  {
  }

  /** Both decisions depend only on which assignments occur, not on their order. */
  lemma DecisionsIgnoreOrder(a: seq<SetVar>, b: seq<SetVar>)
    requires multiset(a) == multiset(b)
    ensures NeedAuditEncryption(a) == NeedAuditEncryption(b)
    ensures GetRedirectStatus(SetStmt(Some(a))) == GetRedirectStatus(SetStmt(Some(b)))
  {
    forall v | v in a ensures v in b {
      assert v in multiset(a);
    }
    forall v | v in b ensures v in a {
      assert v in multiset(b);
    }
    SameElementsSameDecisions(a, b);
    SameElementsSameDecisions(b, a);
  }

  /** Whatever either decision finds in one list, it finds in a list holding
      every element of the first. */
  lemma SameElementsSameDecisions(a: seq<SetVar>, b: seq<SetVar>)
    requires forall v :: v in a ==> v in b
    ensures NeedAuditEncryption(a) ==> NeedAuditEncryption(b)
    ensures RedirectOf(a) == ForwardWithSync ==> RedirectOf(b) == ForwardWithSync
  {
    if NeedAuditEncryption(a) {
      var i :| 0 <= i < |a| && a[i].isPassVar;
      assert a[i] in b;
      var j :| 0 <= j < |b| && b[j] == a[i];
    }
    if RedirectOf(a) == ForwardWithSync {
      var i :| 0 <= i < |a| && (a[i].isPassVar || a[i].setType == Global);
      assert a[i] in b;
      var j :| 0 <= j < |b| && b[j] == a[i];
    }
  }
}
