/**
 * The per-status tally of a report: a dictionary from status name to the
 * number of issues in that status, whose keys keep the order in which each
 * status was first met, as a Python `dict` does.
 */
module StatusTally {
  import opened Jira

  /** An insertion-ordered dictionary: `keys` in insertion order, `counts` the entries. */
  datatype StatusCounts = StatusCounts(keys: seq<string>, counts: map<string, nat>) {

    /** No key twice, and the key order lists exactly the entries. */
    ghost predicate Valid() {
      (forall i, j :: 0 <= i < j < |keys| ==> keys[i] != keys[j])
      && (forall k :: k in counts <==> k in keys)
    }
  }

  /** The status name of each issue, in order. */
  function Statuses(issues: seq<Issue>): (s: seq<string>)
    ensures |s| == |issues|
    ensures forall i :: 0 <= i < |issues| ==> s[i] == issues[i].statusName
  {
    seq(|issues|, i requires 0 <= i < |issues| => issues[i].statusName)
  }

  /** One pass of the tally loop: the entry for `status` goes up by one, created at zero if new. */
  function Bump(t: StatusCounts, status: string): StatusCounts {
    var seen := if status in t.counts then t.counts[status] else 0;
    StatusCounts(if status in t.counts then t.keys else t.keys + [status], t.counts[status := seen + 1])
  }

  /** The dictionary the tally loop leaves after seeing `statuses` in order. */
  function TallyOf(statuses: seq<string>): StatusCounts {
    if statuses == [] then StatusCounts([], map[])
    else Bump(TallyOf(statuses[..|statuses| - 1]), statuses[|statuses| - 1])
  }

  /**
   * The tally is a well-formed dictionary whose keys are exactly the statuses
   * that occur; it is empty exactly when there are no statuses.
   */
  lemma {:induction false} TallyValid(statuses: seq<string>)
    ensures TallyOf(statuses).Valid()
    ensures forall k :: k in TallyOf(statuses).counts <==> k in statuses
    ensures TallyOf(statuses).keys == [] <==> statuses == []
  {
    if statuses != [] {
      var n := |statuses| - 1;
      TallyValid(statuses[..n]);
      assert statuses == statuses[..n] + [statuses[n]];
    }
  }

  /** The tally loop of the report: one dictionary update per issue, in order. */
  method CountStatuses(issues: seq<Issue>) returns (statusCount: StatusCounts)
    ensures statusCount == TallyOf(Statuses(issues)) && statusCount.Valid()
  {
    var keys: seq<string> := [];
    var counts: map<string, nat> := map[];
    for i := 0 to |issues|
      invariant StatusCounts(keys, counts) == TallyOf(Statuses(issues[..i]))
    {
      var status := issues[i].statusName;
      var seen := if status in counts then counts[status] else 0;
      if status !in counts {
        keys := keys + [status];
      }
      counts := counts[status := seen + 1];
      assert Statuses(issues[..i + 1])[..i] == Statuses(issues[..i]);
    }
    assert issues[..|issues|] == issues;
    statusCount := StatusCounts(keys, counts);
    TallyValid(Statuses(issues));
  }

  // ---------------------------------------------------------------------------
  // What the tally means

  /** Each status is counted once per issue carrying it. */
  lemma {:induction false} TallyCounts(statuses: seq<string>)
    ensures forall k :: k in TallyOf(statuses).counts ==> TallyOf(statuses).counts[k] == multiset(statuses)[k]
  {
    if statuses != [] {
      var n := |statuses| - 1;
      TallyCounts(statuses[..n]);
      TallyValid(statuses[..n]);
      assert statuses == statuses[..n] + [statuses[n]];
      assert multiset(statuses) == multiset(statuses[..n]) + multiset{statuses[n]};
    }
  }

  /** Position of the first occurrence of `x` in `s`. */
  function FirstIndex(s: seq<string>, x: string): (i: nat)
    requires x in s
    ensures i < |s| && s[i] == x
    ensures forall k :: 0 <= k < i ==> s[k] != x
  {
    if s[0] == x then 0 else 1 + FirstIndex(s[1..], x)
  }

  lemma {:induction false} FirstIndexPrefix(s: seq<string>, y: string, x: string)
    requires x in s
    ensures FirstIndex(s + [y], x) == FirstIndex(s, x)
  {
    var i := FirstIndex(s, x);
    var j := FirstIndex(s + [y], x);
    assert (s + [y])[i] == x;
    assert j <= i;
    assert s[j] == x;
  }

  /** Each key of `keys` first occurs in `statuses` before every key after it. */
  ghost predicate InFirstSeenOrder(statuses: seq<string>, keys: seq<string>) {
    forall i, j :: 0 <= i < j < |keys| && keys[i] in statuses && keys[j] in statuses ==>
      FirstIndex(statuses, keys[i]) < FirstIndex(statuses, keys[j])
  }

  /** The keys come in the order their statuses first occur. */
  lemma {:induction false} TallyOrder(statuses: seq<string>)
    ensures InFirstSeenOrder(statuses, TallyOf(statuses).keys)
  {
    if statuses != [] {
      var n := |statuses| - 1;
      var p, y := statuses[..n], statuses[n];
      assert statuses == p + [y];
      TallyOrder(p);
      TallyOrderStep(p, y);
    }
  }

  /** Seeing one more status keeps the tally's keys in first-seen order. */
  lemma TallyOrderStep(p: seq<string>, y: string)
    requires InFirstSeenOrder(p, TallyOf(p).keys)
    ensures InFirstSeenOrder(p + [y], TallyOf(p + [y]).keys)
  {
    var s := p + [y];
    assert s[..|s| - 1] == p;
    var before, after := TallyOf(p), TallyOf(s);
    TallyValid(p);
    assert forall k :: 0 <= k < |before.keys| ==> before.keys[k] in p;
    assert after.keys == before.keys || (after.keys == before.keys + [y] && y !in p);
    forall i, j | 0 <= i < j < |after.keys| && after.keys[i] in s && after.keys[j] in s
      ensures FirstIndex(s, after.keys[i]) < FirstIndex(s, after.keys[j])
    {
      KeyPairStep(p, y, before.keys, after.keys, i, j);
    }
  }

  lemma KeyPairStep(p: seq<string>, y: string, before: seq<string>, after: seq<string>, i: nat, j: nat)
    requires InFirstSeenOrder(p, before)
    requires forall k :: 0 <= k < |before| ==> before[k] in p
    requires after == before || (after == before + [y] && y !in p)
    requires i < j < |after|
    ensures after[i] in p + [y] && after[j] in p + [y]
    ensures FirstIndex(p + [y], after[i]) < FirstIndex(p + [y], after[j])
  {
    FirstIndexPrefix(p, y, before[i]);
    if j < |before| {
      FirstIndexPrefix(p, y, before[j]);
    } else {
      NewKeyComesLast(p, y);
    }
  }

  /** A status not seen before first occurs at the end. */
  lemma NewKeyComesLast(p: seq<string>, y: string)
    requires y !in p
    ensures FirstIndex(p + [y], y) == |p|
  {
    assert (p + [y])[|p|] == y;
  }

  /** Sum of the counts, walking the keys. */
  function Total(keys: seq<string>, counts: map<string, nat>): nat
    requires forall k :: k in keys ==> k in counts
  {
    if keys == [] then 0 else Total(keys[..|keys| - 1], counts) + counts[keys[|keys| - 1]]
  }

  lemma {:induction false} TotalIgnores(keys: seq<string>, counts: map<string, nat>, s: string, v: nat)
    requires forall k :: k in keys ==> k in counts
    requires s !in keys
    ensures Total(keys, counts[s := v]) == Total(keys, counts)
  {
    if keys != [] {
      TotalIgnores(keys[..|keys| - 1], counts, s, v);
    }
  }

  lemma {:induction false} TotalUpdate(keys: seq<string>, counts: map<string, nat>, s: string, v: nat)
    requires forall k :: k in keys ==> k in counts
    requires forall i, j :: 0 <= i < j < |keys| ==> keys[i] != keys[j]
    requires s in keys
    ensures Total(keys, counts[s := v]) + counts[s] == Total(keys, counts) + v
  {
    var n := |keys| - 1;
    if keys[n] == s {
      assert s !in keys[..n];
      TotalIgnores(keys[..n], counts, s, v);
    } else {
      TotalUpdate(keys[..n], counts, s, v);
    }
  }

  /** The counts add up to the number of issues. */
  lemma {:induction false} TallyTotal(statuses: seq<string>)
    ensures TallyOf(statuses).Valid()
      && Total(TallyOf(statuses).keys, TallyOf(statuses).counts) == |statuses|
  {
    TallyValid(statuses);
    if statuses != [] {
      var n := |statuses| - 1;
      var y := statuses[n];
      TallyTotal(statuses[..n]);
      var t := TallyOf(statuses[..n]);
      var u := TallyOf(statuses);
      assert u == Bump(t, y);
      if y in t.counts {
        assert y in t.keys;
        assert u.keys == t.keys && u.counts == t.counts[y := t.counts[y] + 1];
        TotalUpdate(t.keys, t.counts, y, t.counts[y] + 1);
      } else {
        assert u.keys == t.keys + [y] && u.counts == t.counts[y := 1];
        assert u.keys[..|u.keys| - 1] == t.keys;
        TotalIgnores(t.keys, t.counts, y, 1);
      }
    }
  }
}
