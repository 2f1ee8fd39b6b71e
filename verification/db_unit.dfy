/** The nestable database transaction under a unit of work. */
module DbUnit {

  type Data = map<string, string>

  datatype Kind = Read | Write | Unsupported

  /**
   * What the function given to a unit of work does. A `strict` caller returns the error of the step, another one drops
   * it. `known` says that all repositories given to the unit can be added to it.
   */
  datatype Body =
    | Return(ok: bool)
    | Put(key: string, value: string, strict: bool, next: Body)
    | Nested(kind: Kind, known: bool, inner: Body, strict: bool, next: Body)

  /** The transaction's data after the body, and whether the body returned without an error. */
  function Effect(tx: Data, writable: bool, b: Body): (r: (Data, bool))
    decreases b
  {
    match b
    case Return(ok) => (tx, ok)
    case Put(k, v, strict, next) =>
      if writable then Effect(tx[k := v], writable, next)
      else if strict then (tx, false)
      else Effect(tx, writable, next)
    case Nested(_, known, inner, strict, next) =>
      var (tx1, ok) := if known then Effect(tx, writable, inner) else (tx, false);
      if !ok && strict then (tx1, false) else Effect(tx1, writable, next)
  }

  /** The result that the body ends with if no step makes it return before. */
  predicate EndsIn(b: Body, ok: bool) {
    match b
    case Return(result) => result == ok
    case Put(_, _, _, next) => EndsIn(next, ok)
    case Nested(_, _, _, _, next) => EndsIn(next, ok)
  }

  /** The body ends well, and every step whose error it would return succeeds. */
  predicate Succeeds(b: Body, writable: bool) {
    match b
    case Return(ok) => ok
    case Put(_, _, strict, next) => (strict ==> writable) && Succeeds(next, writable)
    case Nested(_, known, inner, strict, next) => (strict ==> known && Succeeds(inner, writable)) && Succeeds(next, writable)
  }

  /** A step that fails makes the body return its error. */
  predicate Breaks(b: Body, writable: bool)
    requires !b.Return?
  {
    b.strict && if b.Put? then !writable else !(b.known && Succeeds(b.inner, writable))
  }

  /**
   * What the body puts, in order: its own puts and those of its known nested units, failed ones included, up to the step
   * that makes it return.
   */
  function Puts(b: Body, writable: bool): seq<(string, string)> {
    match b
    case Return(_) => []
    case Put(k, v, _, next) => (if writable then [(k, v)] else []) + (if Breaks(b, writable) then [] else Puts(next, writable))
    case Nested(_, known, inner, _, next) =>
      (if known then Puts(inner, writable) else []) + (if Breaks(b, writable) then [] else Puts(next, writable))
  }

  function PutAll(d: Data, ps: seq<(string, string)>): Data
    decreases |ps|
  {
    if ps == [] then d else PutAll(d, ps[..|ps| - 1])[ps[|ps| - 1].0 := ps[|ps| - 1].1]
  }

  lemma {:induction false} PutAllConcat(d: Data, p: seq<(string, string)>, q: seq<(string, string)>)
    ensures PutAll(d, p + q) == PutAll(PutAll(d, p), q)
    decreases |q|
  {
    if q == [] {
      assert p + q == p;
    } else {
      PutAllConcat(d, p, q[..|q| - 1]);
      assert (p + q)[..|p + q| - 1] == p + q[..|q| - 1];
    }
  }

  /** What is read under a key is what was put there last. */
  lemma {:induction false} LastPut(d: Data, ps: seq<(string, string)>, i: nat)
    requires i < |ps| && forall j | i < j < |ps| :: ps[j].0 != ps[i].0
    ensures ps[i].0 in PutAll(d, ps) && PutAll(d, ps)[ps[i].0] == ps[i].1
    decreases |ps|
  {
    if i < |ps| - 1 {
      LastPut(d, ps[..|ps| - 1], i);
    }
  }

  /** A body that would end with an error never succeeds; one that would end well does unless one of its steps breaks it. */
  lemma {:induction false} BadEnd(b: Body, writable: bool)
    ensures EndsIn(b, false) ==> !Succeeds(b, writable)
    ensures EndsIn(b, true) <==> !EndsIn(b, false)
    ensures Succeeds(b, writable) ==> EndsIn(b, true)
  {
    match b
    case Return(_) =>
    case Put(_, _, _, next) => BadEnd(next, writable);
    case Nested(_, _, _, _, next) => BadEnd(next, writable);
  }

  /** The body succeeds exactly when it should, and the transaction then holds just what was put into it. */
  lemma {:induction false} EffectExactly(tx: Data, writable: bool, b: Body)
    ensures Effect(tx, writable, b) == (PutAll(tx, Puts(b, writable)), Succeeds(b, writable))
    decreases b
  {
    match b
    case Return(_) =>
    case Put(k, v, _, next) =>
      var own := if writable then [(k, v)] else [];
      var tx1 := if writable then tx[k := v] else tx;
      assert PutAll(tx, own) == tx1;
      EffectExactly(tx1, writable, next);
      PutAllConcat(tx, own, if Breaks(b, writable) then [] else Puts(next, writable));
    case Nested(_, known, inner, _, next) =>
      var own := if known then Puts(inner, writable) else [];
      EffectExactly(tx, writable, inner);
      EffectExactly(PutAll(tx, own), writable, next);
      PutAllConcat(tx, own, if Breaks(b, writable) then [] else Puts(next, writable));
  }

  /** A body run in a read transaction never changes the data, whatever units it nests. */
  lemma {:induction false} ReadOnly(tx: Data, b: Body)
    ensures Effect(tx, false, b).0 == tx
  {
    match b
    case Return(_) =>
    case Put(_, _, _, next) => ReadOnly(tx, next);
    case Nested(_, _, inner, _, next) => ReadOnly(tx, inner); ReadOnly(tx, next);
  }

  /** The body with every nested unit asked for as `kind`. */
  function AllNestedAs(b: Body, kind: Kind): Body {
    match b
    case Return(_) => b
    case Put(k, v, strict, next) => Put(k, v, strict, AllNestedAs(next, kind))
    case Nested(_, known, inner, strict, next) =>
      Nested(kind, known, AllNestedAs(inner, kind), strict, AllNestedAs(next, kind))
  }

  /** The kind that a nested unit asks for has no effect: it runs in the outermost transaction. */
  lemma {:induction false} NestedKindIgnored(tx: Data, writable: bool, b: Body, kind: Kind)
    ensures Effect(tx, writable, AllNestedAs(b, kind)) == Effect(tx, writable, b)
    decreases b
  {
    match b
    case Return(_) =>
    case Put(k, v, strict, next) => NestedKindIgnored(if writable then tx[k := v] else tx, writable, next, kind);
    case Nested(_, known, inner, strict, next) =>
      NestedKindIgnored(tx, writable, inner, kind);
      var tx1 := if known then Effect(tx, writable, inner).0 else tx;
      NestedKindIgnored(tx1, writable, next, kind);
  }

  /** A nested unit that fails keeps what it wrote when its caller drops the error: only the outermost result counts. */
  lemma FailedNestedWriteStays(tx: Data, kind: Kind, k: string, v: string)
    ensures Effect(tx, true, Nested(kind, true, Put(k, v, true, Return(false)), false, Return(true))) == (tx[k := v], true)
  {
    assert Effect(tx, true, Put(k, v, true, Return(false))) == Effect(tx[k := v], true, Return(false));
  }

  /** The database, with the transaction that is open, if any. */
  class Bolt {
    var data: Data
    var tx: Data
    var open: bool
    var writable: bool
    var begins: nat
    var closes: nat

    constructor ()
      ensures !open && data == map[] && begins == closes == 0
    {
      data, tx, open, writable := map[], map[], false, false;
      begins, closes := 0, 0;
    }

    /** The database `opens` a transaction, or refuses to. */
    method Begin(writable: bool, opens: bool) returns (ok: bool)
      requires !open
      modifies this
      ensures data == old(data) && closes == old(closes) && open == ok == opens
      ensures begins == old(begins) + if ok then 1 else 0
      ensures ok ==> tx == data && this.writable == writable
    {
      ok := opens;
      if ok {
        tx, open, this.writable, begins := data, true, writable, begins + 1;
      }
    }

    /** Where the database `commits`, everything written becomes visible, else nothing; either way the transaction closes. */
    method Commit(commits: bool) returns (ok: bool)
      requires open && writable
      modifies this
      ensures !open && begins == old(begins) && closes == old(closes) + 1 && ok == commits
      ensures data == if ok then old(tx) else old(data)
    {
      ok := commits;
      if ok {
        data := tx;
      }
      open, closes := false, closes + 1;
    }

    /** Closing a closed transaction is an error that the unit of work ignores. */
    method Rollback()
      modifies this
      ensures !open && data == old(data) && begins == old(begins)
      ensures closes == old(closes) + (if old(open) then 1 else 0)
    {
      if open {
        open, closes := false, closes + 1;
      }
    }

    /** A unit started inside another one joins its transaction. */
    method Join(known: bool, body: Body) returns (ok: bool)
      requires open
      modifies this
      ensures open && writable == old(writable) && data == old(data)
      ensures begins == old(begins) && closes == old(closes)
      ensures (tx, ok) == if known then Effect(old(tx), writable, body) else (old(tx), false)
      decreases body, 1
    {
      if !known {
        return false;
      }
      ok := Run(body);
    }

    method Run(body: Body) returns (ok: bool)
      requires open
      modifies this
      ensures open && writable == old(writable) && data == old(data)
      ensures begins == old(begins) && closes == old(closes)
      ensures (tx, ok) == Effect(old(tx), writable, body)
      decreases body, 0
    {
      match body
      case Return(result) =>
        ok := result;
      case Put(k, v, strict, next) =>
        if writable {
          tx := tx[k := v];
        } else if strict {
          return false;
        }
        ok := Run(next);
      case Nested(_, known, inner, strict, next) =>
        ok := Join(known, inner);
        if !ok && strict {
          return;
        }
        ok := Run(next);
    }

    /**
     * The outermost unit begins one transaction and closes it once, whatever is nested in it. It succeeds exactly when
     * the database opens the transaction, all repositories are known, the body succeeds, and what it wrote is committed.
     * Then all its puts stay, and otherwise none: an error at the end of the body undoes everything.
     */
    method Start(kind: Kind, known: bool, body: Body, opens: bool, commits: bool) returns (ok: bool)
      requires !open
      modifies this
      ensures !open
      ensures begins - old(begins) == closes - old(closes) == if kind != Unsupported && opens then 1 else 0
      ensures ok <==> kind != Unsupported && opens && known && Succeeds(body, kind == Write) && (kind == Write ==> commits)
      ensures EndsIn(body, false) ==> !ok && data == old(data)
      ensures data == if ok && kind == Write then PutAll(old(data), Puts(body, true)) else old(data)
    {
      BadEnd(body, kind == Write);
      EffectExactly(data, kind == Write, body);
      if kind == Unsupported {
        return false;
      }
      ok := Begin(kind == Write, opens);
      if !ok {
        return;
      }
      ok := Join(known, body);
      if ok && kind == Write {
        ok := Commit(commits);
      }
      Rollback();
    }
  }
}
