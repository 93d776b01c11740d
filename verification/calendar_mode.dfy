/**
 * The `mode` helper of the events calendar: the most frequent start time,
 * found in one pass with a tally, the highest tally so far, and the value
 * that last raised it.
 */
module CalendarMode {
  import opened Wrappers

  /** How often `x` occurs in `s`. */
  function Count(s: seq<string>, x: string): nat {
    multiset(s)[x]
  }

  /** Extending a prefix by one element raises exactly that element's count. */
  lemma CountStep(s: seq<string>, i: nat, x: string)
    requires i < |s|
    ensures Count(s[..i + 1], x) == Count(s[..i], x) + (if s[i] == x then 1 else 0)
  {
    assert s[..i + 1] == s[..i] + [s[i]];
  }

  /** Counts only grow along prefixes. */
  lemma CountMonotone(s: seq<string>, j: nat, i: nat, x: string)
    requires j <= i <= |s|
    ensures Count(s[..j], x) <= Count(s[..i], x)
  {
    assert s[..i] == s[..j] + s[j..i];
  }

  /**
   * `m` reaches its final count no later than any other value does: in
   * every prefix in which some value has occurred that often, so has `m`.
   */
  ghost predicate FirstToReach(s: seq<string>, m: string) {
    forall j, x :: 0 <= j <= |s| && Count(s[..j], x) >= Count(s, m) ==> Count(s[..j], m) >= Count(s, m)
  }

  /**
   * The reference definition: `m` occurs in `s`, no value occurs more often,
   * and among the most frequent values `m` is the first to get there.
   */
  ghost predicate IsMode(s: seq<string>, m: string) {
    m in s && (forall x :: Count(s, x) <= Count(s, m)) && FirstToReach(s, m)
  }

  /** Every value that has reached `g` within the first `i` elements did so no earlier than `m`. */
  ghost predicate LeadsThrough(s: seq<string>, i: nat, m: string, g: nat)
    requires i <= |s|
  {
    forall j, x :: 0 <= j <= i && Count(s[..j], x) >= g ==> Count(s[..j], m) >= g
  }

  /** When element `i` raises its tally above every earlier tally, it leads through `i + 1`. */
  lemma RaiseLeads(s: seq<string>, i: nat, g: nat)
    requires i < |s|
    requires forall x :: Count(s[..i], x) <= g
    requires g < Count(s[..i + 1], s[i])
    ensures LeadsThrough(s, i + 1, s[i], Count(s[..i + 1], s[i]))
  {
    var t := Count(s[..i + 1], s[i]);
    forall j, x | 0 <= j <= i + 1 && Count(s[..j], x) >= t ensures Count(s[..j], s[i]) >= t {
      if j <= i {
        CountMonotone(s, j, i, x);
        assert false;
      }
    }
  }

  /** A leader whose tally is still the best keeps leading one element further. */
  lemma KeepLeads(s: seq<string>, i: nat, m: string, g: nat)
    requires i < |s|
    requires Count(s[..i], m) == g
    requires LeadsThrough(s, i, m, g)
    ensures LeadsThrough(s, i + 1, m, g)
  {
    CountMonotone(s, i, i + 1, m);
  }

  /**
   * The loop state after `i` elements: `counts` holds each value's tally
   * (absent meaning 0), `g` is the highest tally, and `mode` is a value with
   * that tally that got there first.
   */
  ghost predicate Tallied(s: seq<string>, i: nat, counts: map<string, nat>, g: nat, mode: Option<string>)
    requires i <= |s|
  {
    (forall x :: Count(s[..i], x) == (if x in counts then counts[x] else 0)) &&
    (forall x :: Count(s[..i], x) <= g) &&
    (i == 0 ==> g == 0 && mode.None?) &&
    (i > 0 ==> mode.Some? && mode.value in s[..i] && Count(s[..i], mode.value) == g) &&
    (mode.Some? ==> LeadsThrough(s, i, mode.value, g))
  }

  /** One `forEach` step keeps the loop state: bump the tally, and take the lead on a strict rise. */
  lemma Step(s: seq<string>, i: nat, counts: map<string, nat>, g: nat, mode: Option<string>)
    requires i < |s| && Tallied(s, i, counts, g, mode)
    ensures var v := s[i];
      var t := (if v in counts then counts[v] else 0) + 1;
      Tallied(s, i + 1, counts[v := t], if g < t then t else g, if g < t then Some(v) else mode)
  {
    var v := s[i];
    var t := (if v in counts then counts[v] else 0) + 1;
    var prev, next := s[..i], s[..i + 1];
    forall x ensures Count(next, x) == Count(prev, x) + (if v == x then 1 else 0) {
      CountStep(s, i, x);
    }
    assert next[i] == v;
    assert Count(next, v) == t;
    if g < t {
      RaiseLeads(s, i, g);
      assert forall x :: Count(next, x) <= t;
    } else {
      KeepLeads(s, i, mode.value, g);
      assert mode.value in next by {
        assert prev <= next;
      }
      assert forall x :: Count(next, x) <= g;
    }
  }

  /**
   * `mode`: undefined for an empty array; otherwise the most frequent value,
   * ties going to the value that first reaches the top count, since the
   * tally must strictly exceed the best so far to replace it.
   */
  method Mode(arr: seq<string>) returns (mode: Option<string>)
    ensures mode.None? <==> |arr| == 0
    ensures mode.Some? ==> mode.value in arr
    ensures mode.Some? ==> forall x :: Count(arr, x) <= Count(arr, mode.value)
    ensures mode.Some? ==> IsMode(arr, mode.value)
  {
    var numMapping: map<string, nat> := map[];
    var greatestFreq: nat := 0;
    mode := None;
    var i := 0;
    while i < |arr|
      invariant 0 <= i <= |arr|
      invariant Tallied(arr, i, numMapping, greatestFreq, mode)
    {
      var v := arr[i];
      Step(arr, i, numMapping, greatestFreq, mode);
      numMapping := numMapping[v := (if v in numMapping then numMapping[v] else 0) + 1];
      if greatestFreq < numMapping[v] {
        greatestFreq := numMapping[v];
        mode := Some(v);
      }
      i := i + 1;
    }
    assert arr[..|arr|] == arr;
  }

  /** The reference definition picks at most one value, so the contract of `Mode` fixes its result. */
  lemma ModeIsDetermined(s: seq<string>, a: string, b: string)
    requires IsMode(s, a) && IsMode(s, b)
    ensures a == b
  {
    var g := Count(s, a);
    assert Count(s, b) == g;
    assert s[..|s|] == s;
    assert g >= 1;
    var j := 0;
    while Count(s[..j], a) < g
      invariant 0 <= j <= |s|
      invariant j > 0 ==> Count(s[..j - 1], a) < g
      decreases |s| - j
    {
      j := j + 1;
    }
    assert j > 0;
    assert Count(s[..j], b) >= g;
    assert Count(s[..j - 1], b) < g;
    CountStep(s, j - 1, a);
    CountStep(s, j - 1, b);
  }

  /** On `["9:00", "10:00", "10:00", "9:00"]` both times occur twice; "10:00" got there first. */
  lemma TieGoesToFirstToReach()
    ensures IsMode(["9:00", "10:00", "10:00", "9:00"], "10:00")
    ensures !IsMode(["9:00", "10:00", "10:00", "9:00"], "9:00")
  {
    var s := ["9:00", "10:00", "10:00", "9:00"];
    assert s[..3] == ["9:00", "10:00", "10:00"];
    assert Count(s[..3], "10:00") == 2 && Count(s[..3], "9:00") == 1;
    assert Count(s, "10:00") == 2 && Count(s, "9:00") == 2;
    forall j, x | 0 <= j <= |s| ensures Count(s[..j], x) >= 2 ==> Count(s[..j], "10:00") >= 2 {
      if j == 0 {
        assert s[..j] == [];
      } else if j == 1 {
        assert s[..j] == ["9:00"];
      } else if j == 2 {
        assert s[..j] == ["9:00", "10:00"];
      } else if j == 3 {
        assert s[..j] == ["9:00", "10:00", "10:00"];
      } else {
        assert s[..j] == s;
      }
    }
  }
}
