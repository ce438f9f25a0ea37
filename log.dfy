/** The invocation log: an append-only sequence of recorded calls, and the
    counts and ordinal lookups made over it. */
module InvocationLog {
  import opened Values

  /** One recorded call (`MockInvocation`): the function name and the
      parameters, each present or `nil`. */
  datatype Invocation<V> = Invocation(name: string, parameters: seq<Option<V>>)

  /** `invocations.filter { $0.name == function }`: the entries named `f`,
      in recording order. */
  function Matching<V>(log: seq<Invocation<V>>, f: string): (r: seq<Invocation<V>>)
    ensures |r| <= |log|
    ensures forall i :: 0 <= i < |r| ==> r[i].name == f && r[i] in log
  {
    if |log| == 0 then []
    else (if log[0].name == f then [log[0]] else []) + Matching(log[1..], f)
  }

  /** `invocations(forFunction:)` */
  function Count<V>(log: seq<Invocation<V>>, f: string): (n: nat)
    ensures n <= |log|
  {
    |Matching(log, f)|
  }

  /** `invoked(function:)` */
  predicate Invoked<V>(log: seq<Invocation<V>>, f: string)
  {
    Count(log, f) > 0
  }

  /** `parameters(forFunction:invocation:)`: the parameters of the
      `invocation`-th (1-based) entry named `f`, or `[]` when the ordinal is
      out of range. */
  function Parameters<V>(log: seq<Invocation<V>>, f: string, invocation: int): (r: seq<Option<V>>)
    ensures !(1 <= invocation <= Count(log, f)) ==> r == []
  {
    var matching := Matching(log, f);
    if invocation > 0 && invocation <= |matching| then matching[invocation - 1].parameters else []
  }

  /** Filtering distributes over concatenation. */
  lemma {:induction false} MatchingAppend<V>(a: seq<Invocation<V>>, b: seq<Invocation<V>>, f: string)
    ensures Matching(a + b, f) == Matching(a, f) + Matching(b, f)
    decreases |a|
  {
    if |a| > 0 {
      assert (a + b)[0] == a[0];
      assert (a + b)[1..] == a[1..] + b;
      MatchingAppend(a[1..], b, f);
    } else {
      assert a + b == b;
    }
  }

  /** `record` adds the new entry at the end of the entries named `f` when it
      is named `f`, and leaves them alone otherwise. */
  lemma RecordMatching<V>(log: seq<Invocation<V>>, inv: Invocation<V>, f: string)
    ensures Matching(log + [inv], f) == Matching(log, f) + (if inv.name == f then [inv] else [])
  {
    MatchingAppend(log, [inv], f);
    assert Matching([inv], f) == (if inv.name == f then [inv] else []) + Matching([inv][1..], f);
  }

  /** `record` raises the count of its own function by one and no other. */
  lemma RecordCount<V>(log: seq<Invocation<V>>, inv: Invocation<V>, f: string)
    ensures Count(log + [inv], f) == Count(log, f) + (if inv.name == f then 1 else 0)
  {
    RecordMatching(log, inv, f);
  }

  /** `record` makes its parameters the last ordinal of its function; every
      earlier ordinal, and every ordinal of every other function, reads as
      before, so interleaved calls do not disturb the numbering. */
  lemma RecordParameters<V>(log: seq<Invocation<V>>, inv: Invocation<V>, f: string, i: int)
    ensures Parameters(log + [inv], f, i) ==
      if inv.name == f && i == Count(log, f) + 1 then inv.parameters else Parameters(log, f, i)
  {
    RecordMatching(log, inv, f);
  }

  /** `invoked(f)` holds exactly when some entry of the log is named `f`. */
  lemma {:induction false} InvokedIffRecorded<V>(log: seq<Invocation<V>>, f: string)
    ensures Invoked(log, f) <==> exists j :: 0 <= j < |log| && log[j].name == f
    decreases |log|
  {
    if |log| > 0 {
      InvokedIffRecorded(log[1..], f);
      if log[0].name != f {
        assert (exists j :: 0 <= j < |log| && log[j].name == f) <==>
               (exists j :: 0 <= j < |log[1..]| && log[1..][j].name == f) by {
          forall j | 0 <= j < |log| && log[j].name == f
            ensures 0 <= j - 1 < |log[1..]| && log[1..][j - 1].name == f
          {
          }
        }
      }
    }
  }

  /** The ordinal lookup is the `i`-th entry named `f` in recording order:
      for `1 <= i <= count` there is a position `j` of the log whose entry is
      named `f`, has exactly `i - 1` entries named `f` before it, and whose
      parameters are the ones returned. */
  lemma {:induction false} ParametersOfIthMatch<V>(log: seq<Invocation<V>>, f: string, i: int)
    requires 1 <= i <= Count(log, f)
    ensures exists j :: IsIthMatch(log, f, i, j)
    decreases |log|
  {
    var init, last := log[..|log| - 1], log[|log| - 1];
    assert log == init + [last];
    RecordCount(init, last, f);
    RecordParameters(init, last, f, i);
    if last.name == f && i == Count(init, f) + 1 {
      assert IsIthMatch(log, f, i, |log| - 1);
    } else {
      ParametersOfIthMatch(init, f, i);
      var j :| IsIthMatch(init, f, i, j);
      ExtendIthMatch(init, last, f, i, j);
    }
  }

  /** Position `j` holds the `i`-th entry named `f`, and the ordinal lookup
      returns its parameters. */
  ghost predicate IsIthMatch<V>(log: seq<Invocation<V>>, f: string, i: int, j: int)
  {
    && 0 <= j < |log| && log[j].name == f && Count(log[..j], f) == i - 1
    && Parameters(log, f, i) == log[j].parameters
  }

  /** An entry recorded later does not move an earlier ordinal. */
  lemma ExtendIthMatch<V>(init: seq<Invocation<V>>, last: Invocation<V>, f: string, i: int, j: int)
    requires IsIthMatch(init, f, i, j)
    requires Parameters(init + [last], f, i) == Parameters(init, f, i)
    ensures IsIthMatch(init + [last], f, i, j)
  {
    assert (init + [last])[..j] == init[..j];
  }
}
