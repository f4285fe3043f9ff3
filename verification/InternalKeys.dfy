/**
 The internal-key order of dbformat and the multi-version reading of a set of entries.

 The engine looks at user keys only through the user comparator, so a user key is
 represented by its rank in that order, a real number: every countable total order embeds
 in the reals, hence what is proved here for all ranks holds for every comparator.
 */
module InternalKeys {

  type byte = b: int | 0 <= b < 256
  type Bytes = seq<byte>
  type UserKey = real

  datatype Option<+T> = None | Some(value: T)

  datatype Kind = Deletion | Value

  /** One version of one user key: an internal key with its value. */
  datatype Entry = Entry(key: UserKey, seqno: nat, kind: Kind, value: Bytes)

  /** InternalKeyComparator: user keys up, then sequence numbers down, then kinds down. */
  predicate Before(a: Entry, b: Entry)
  {
    || a.key < b.key
    || (a.key == b.key && a.seqno > b.seqno)
    || (a.key == b.key && a.seqno == b.seqno && a.kind.Value? && b.kind.Deletion?)
  }

  /** The internal key a lookup of `k` at snapshot `s` seeks to (kValueTypeForSeek). */
  function SeekKey(k: UserKey, s: nat): Entry
  {
    Entry(k, s, Value, [])
  }

  ghost predicate Sorted(es: seq<Entry>)
  {
    forall i, j :: 0 <= i < j < |es| ==> Before(es[i], es[j])
  }

  /** Entry `e` is a version of `k` that snapshot `s` may see. */
  predicate Matches(e: Entry, k: UserKey, s: nat)
  {
    e.key == k && e.seqno <= s
  }

  /** `e` is the newest version of `k` in `es` at or below snapshot `s`. */
  ghost predicate IsNewest(es: iset<Entry>, k: UserKey, s: nat, e: Entry)
  {
    e in es && Matches(e, k, s) && forall d :: d in es && Matches(d, k, s) ==> d.seqno <= e.seqno
  }

  /** A lookup result: the newest matching version, or nothing when none matches. */
  ghost predicate IsLookup(es: iset<Entry>, k: UserKey, s: nat, r: Option<Entry>)
  {
    match r
    case Some(e) => IsNewest(es, k, s, e)
    case None => forall e :: e in es ==> !Matches(e, k, s)
  }

  /** A user reading `k` at snapshot `s` gets the value `v`. */
  ghost predicate Shows(es: iset<Entry>, k: UserKey, s: nat, v: Bytes)
  {
    exists e :: IsNewest(es, k, s, e) && e.kind.Value? && e.value == v
  }

  /** What a reader at snapshot `s` sees: the pairs of user keys and values. */
  ghost function View(es: iset<Entry>, s: nat): iset<(UserKey, Bytes)>
  {
    iset p: (UserKey, Bytes) | Shows(es, p.0, s, p.1)
  }

  /** No two versions of one user key carry the same sequence number. */
  ghost predicate Unique(es: iset<Entry>)
  {
    forall d, e :: d in es && e in es && d.key == e.key && d.seqno == e.seqno ==> d == e
  }

  /** Two lookup results a user cannot tell apart. */
  predicate SameAnswer(a: Option<Entry>, b: Option<Entry>)
  {
    a == b || (Missing(a) && Missing(b))
  }

  /** The key reads as absent: nothing was found, or a deletion marker. */
  predicate Missing(r: Option<Entry>)
  {
    r.None? || r.value.kind.Deletion?
  }

  lemma {:induction false} LookupUnique(es: iset<Entry>, k: UserKey, s: nat, a: Option<Entry>, b: Option<Entry>)
    requires Unique(es) && IsLookup(es, k, s, a) && IsLookup(es, k, s, b)
    ensures a == b
  {
  }

  /** Reading `k` at `s` gives the user the same answer in both sets of entries. */
  ghost predicate Agree(es: iset<Entry>, es': iset<Entry>, k: UserKey, s: nat)
  {
    exists a, b :: IsLookup(es, k, s, a) && IsLookup(es', k, s, b) && SameAnswer(a, b)
  }

  /** Equal answers for every key give equal views. */
  lemma {:induction false} SameAnswersSameView(es: iset<Entry>, es': iset<Entry>, s: nat)
    requires Unique(es) && Unique(es')
    requires forall k :: Agree(es, es', k, s)
    ensures View(es, s) == View(es', s)
  {
    forall k, v
      ensures Shows(es, k, s, v) <==> Shows(es', k, s, v)
    {
      assert Agree(es, es', k, s);
      var a, b :| IsLookup(es, k, s, a) && IsLookup(es', k, s, b) && SameAnswer(a, b);
      ShowsByLookup(es, k, s, v, a);
      ShowsByLookup(es', k, s, v, b);
    }
  }

  lemma {:induction false} ShowsByLookup(es: iset<Entry>, k: UserKey, s: nat, v: Bytes, r: Option<Entry>)
    requires Unique(es) && IsLookup(es, k, s, r)
    ensures Shows(es, k, s, v) <==> r.Some? && r.value.kind.Value? && r.value.value == v
  {
    if Shows(es, k, s, v) {
      var e :| IsNewest(es, k, s, e) && e.kind.Value? && e.value == v;
      LookupUnique(es, k, s, r, Some(e));
    }
  }
}
