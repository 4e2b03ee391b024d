/** The sliding-window loop detector: it warns about a set of tool calls that keeps coming back
    and stops the run when it does so too often (pkg/agent/policy.go). */
module LoopPolicy {
  import opened Wrappers

  const DEFAULT_WARN := 3
  const DEFAULT_HARD := 5
  const DEFAULT_WINDOW := 20

  datatype Policy = Policy(warnThreshold: int, hardLimit: int, windowSize: int) {
    function Warn(): (n: int)
      ensures n > 0
    {
      if warnThreshold <= 0 then DEFAULT_WARN else warnThreshold
    }

    function Hard(): (n: int)
      ensures n > 0
    {
      if hardLimit <= 0 then DEFAULT_HARD else hardLimit
    }

    function Window(): (n: int)
      ensures n > 0
    {
      if windowSize <= 0 then DEFAULT_WINDOW else windowSize
    }
  }

  datatype Decision = Proceed | Warning | HardStop

  function Tail<K>(s: seq<K>, n: nat): seq<K> {
    if |s| > n then s[|s| - n..] else s
  }

  function Count<K(==)>(s: seq<K>, k: K): nat {
    if s == [] then 0 else Count(s[..|s| - 1], k) + if s[|s| - 1] == k then 1 else 0
  }

  /** The decision on a hash that brought the history to `history`. */
  function Judge<K(==)>(p: Policy, history: seq<K>, warned: set<K>, k: K): Decision {
    if Count(history, k) >= p.Hard() then HardStop
    else if Count(history, k) >= p.Warn() && k !in warned then Warning
    else Proceed
  }

  /** Positive settings are used as they are; without them a run is warned at three, stopped at five,
      and looks back over twenty. */
  lemma SettingsAreUsed(p: Policy)
    ensures (p.warnThreshold >= 1 ==> p.Warn() == p.warnThreshold) && (p.warnThreshold < 1 ==> p.Warn() == 3)
    ensures (p.hardLimit >= 1 ==> p.Hard() == p.hardLimit) && (p.hardLimit < 1 ==> p.Hard() == 5)
    ensures (p.windowSize >= 1 ==> p.Window() == p.windowSize) && (p.windowSize < 1 ==> p.Window() == 20)
  {
  }

  class ToolLoopState<K(==)> {
    var history: seq<K>
    var warned: set<K>

    constructor ()
      ensures history == [] && warned == {}
    {
      history, warned := [], {};
    }

    /** `Evaluate`; calls that give no hash leave the state alone. */
    method Evaluate(p: Policy, hash: Option<K>) returns (d: Decision)
      modifies this
      ensures hash == None ==> d == Proceed && history == old(history) && warned == old(warned)
      ensures hash.Some? ==>
        && history == Tail(old(history) + [hash.value], p.Window())
        && d == Judge(p, history, old(warned), hash.value)
        && warned == old(warned) + if d == Warning then {hash.value} else {}
    {
      if hash == None {
        return Proceed;
      }
      var k := hash.value;
      history := history + [k];
      if |history| > p.Window() {
        history := history[|history| - p.Window()..];
      }
      var count := 0;
      for i := 0 to |history|
        invariant count == Count(history[..i], k)
      {
        assert history[..i + 1][..i] == history[..i];
        if history[i] == k {
          count := count + 1;
        }
      }
      assert history[..|history|] == history;
      if count >= p.Hard() {
        return HardStop;
      }
      if count >= p.Warn() {
        if k !in warned {
          warned := warned + {k};
          return Warning;
        }
      }
      return Proceed;
    }
  }

  // ---- a series of evaluations --------------------------------------------------------------

  datatype Trace<K> = Trace(history: seq<K>, warned: set<K>, decisions: seq<Decision>)

  function Run<K(==)>(p: Policy, keys: seq<K>): Trace<K> {
    if keys == [] then Trace([], {}, [])
    else
      var before, k := Run(p, keys[..|keys| - 1]), keys[|keys| - 1];
      var history := Tail(before.history + [k], p.Window());
      var d := Judge(p, history, before.warned, k);
      Trace(history, before.warned + (if d == Warning then {k} else {}), before.decisions + [d])
  }

  /** The hashes among the results of hashing, in order. */
  function Keys<K>(hashes: seq<Option<K>>): seq<K> {
    if hashes == [] then []
    else
      match hashes[|hashes| - 1]
      case None => Keys(hashes[..|hashes| - 1])
      case Some(k) => Keys(hashes[..|hashes| - 1]) + [k]
  }

  /** The agent's rounds: each round's calls are judged until one is stopped.  The run stops
      exactly when judging all the rounds would stop any, and then at the first such round. */
  method EvaluateRounds<K(==)>(p: Policy, hashes: seq<Option<K>>) returns (rounds: nat, stopped: bool)
    ensures rounds <= |hashes| && (!stopped ==> rounds == |hashes|)
    ensures stopped <==> HardStop in Run(p, Keys(hashes)).decisions
    ensures stopped ==> rounds > 0 && HardStop !in Run(p, Keys(hashes[..rounds - 1])).decisions &&
                        HardStop in Run(p, Keys(hashes[..rounds])).decisions
  {
    hide Judge, Tail, Count;
    var state := new ToolLoopState<K>();
    for i := 0 to |hashes|
      invariant var run := Run(p, Keys(hashes[..i]));
                state.history == run.history && state.warned == run.warned && HardStop !in run.decisions
    {
      assert hashes[..i + 1][..i] == hashes[..i];
      var d := state.Evaluate(p, hashes[i]);
      if hashes[i].Some? {
        assert Keys(hashes[..i + 1])[..|Keys(hashes[..i])|] == Keys(hashes[..i]);
      }
      if d == HardStop {
        StopIsKept(p, hashes, i + 1);
        return i + 1, true;
      }
    }
    assert hashes[..|hashes|] == hashes;
    return |hashes|, false;
  }

  lemma KeysOfOne<K>(hash: Option<K>)
    ensures Keys([hash]) == match hash case None => [] case Some(k) => [k]
  {
    assert [hash][..0] == [];
  }

  /** The hashes of two series of rounds are those of each, in order. */
  lemma {:induction false} KeysOfConcat<K>(a: seq<Option<K>>, b: seq<Option<K>>)
    ensures Keys(a + b) == Keys(a) + Keys(b)
    decreases |b|
  {
    if b == [] {
      assert a + b == a;
    } else {
      assert (a + b)[..|a + b| - 1] == a + b[..|b| - 1];
      KeysOfConcat(a, b[..|b| - 1]);
    }
  }

  lemma {:induction false} KeysPrefix<K>(hashes: seq<Option<K>>, n: nat)
    requires n <= |hashes|
    ensures |Keys(hashes[..n])| <= |Keys(hashes)| && Keys(hashes)[..|Keys(hashes[..n])|] == Keys(hashes[..n])
    decreases |hashes|
  {
    if n == |hashes| {
      assert hashes[..n] == hashes;
    } else {
      KeysPrefix(hashes[..|hashes| - 1], n);
      assert hashes[..|hashes| - 1][..n] == hashes[..n];
    }
  }

  lemma StopIsKept<K>(p: Policy, hashes: seq<Option<K>>, n: nat)
    requires n <= |hashes| && HardStop in Run(p, Keys(hashes[..n])).decisions
    ensures HardStop in Run(p, Keys(hashes)).decisions
  {
    hide Judge, Tail, Count;
    KeysPrefix(hashes, n);
    RunPrefix(p, Keys(hashes), |Keys(hashes[..n])|);
  }

  lemma {:induction false} CountConcat<K>(a: seq<K>, b: seq<K>, k: K)
    ensures Count(a + b, k) == Count(a, k) + Count(b, k)
    decreases |b|
  {
    if b == [] {
      assert a + b == a;
    } else {
      assert (a + b)[..|a + b| - 1] == a + b[..|b| - 1];
      CountConcat(a, b[..|b| - 1], k);
    }
  }

  lemma CountTail<K>(s: seq<K>, n: nat, k: K)
    ensures Count(Tail(s, n), k) <= Count(s, k)
  {
    if |s| > n {
      assert s == s[..|s| - n] + s[|s| - n..];
      CountConcat(s[..|s| - n], s[|s| - n..], k);
    }
  }

  lemma {:induction false} RunPrefix<K>(p: Policy, keys: seq<K>, n: nat)
    requires n <= |keys|
    ensures |Run(p, keys).decisions| == |keys|
    ensures Run(p, keys[..n]).decisions == Run(p, keys).decisions[..n]
    decreases |keys|
  {
    hide Judge, Tail, Count;
    if keys == [] {
    } else if n == |keys| {
      assert keys[..n] == keys;
      RunPrefix(p, keys[..n - 1], n - 1);
    } else {
      RunPrefix(p, keys[..|keys| - 1], n);
      assert keys[..|keys| - 1][..n] == keys[..n];
    }
  }

  lemma TailStep<K>(s: seq<K>, k: K, n: nat)
    requires n > 0
    ensures Tail(Tail(s, n) + [k], n) == Tail(s + [k], n)
  {
    var t := Tail(s, n) + [k];
    if |s| >= n {
      assert |s| > n ==> Tail(s, n) == s[|s| - n..];
      assert t == (s + [k])[|s| - n..];
      assert t[1..] == (s + [k])[|s| + 1 - n..];
    }
  }

  /** The history is always the last `Window()` hashes seen. */
  lemma {:induction false} HistoryIsTheWindow<K>(p: Policy, keys: seq<K>)
    ensures Run(p, keys).history == Tail(keys, p.Window())
    decreases |keys|
  {
    hide Tail, Judge, Count;
    if keys == [] {
      EmptyTail<K>(p.Window());
    } else {
      var last := |keys| - 1;
      HistoryIsTheWindow(p, keys[..last]);
      TailStep(keys[..last], keys[last], p.Window());
      assert keys == keys[..last] + [keys[last]];
    }
  }

  lemma EmptyTail<K>(n: nat)
    ensures Tail<K>([], n) == []
  {
  }

  /** Evaluation `i` stops the run exactly when its hash occurs `Hard()` times among the last
      `Window()` hashes, itself included. */
  lemma StopsExactlyAtTheLimit<K>(p: Policy, keys: seq<K>, i: nat)
    requires i < |keys|
    ensures |Run(p, keys).decisions| == |keys|
    ensures Run(p, keys).decisions[i] == HardStop <==> Count(Tail(keys[..i + 1], p.Window()), keys[i]) >= p.Hard()
  {
    hide Tail;
    RunPrefix(p, keys, i + 1);
    RunPrefix(p, keys[..i + 1], i);
    HistoryIsTheWindow(p, keys[..i + 1]);
    assert Run(p, keys).decisions[i] == Run(p, keys).decisions[..i + 1][i];
  }

  /** A hash is in `warned` exactly when some evaluation of it ended in a warning. */
  lemma {:induction false} WarnedIsRecorded<K>(p: Policy, keys: seq<K>, k: K)
    ensures |Run(p, keys).decisions| == |keys|
    ensures k in Run(p, keys).warned <==>
            exists i :: 0 <= i < |keys| && keys[i] == k && Run(p, keys).decisions[i] == Warning
    decreases |keys|
  {
    hide Tail, Judge;
    RunPrefix(p, keys, 0);
    if keys != [] {
      var n := |keys| - 1;
      WarnedIsRecorded(p, keys[..n], k);
      RunPrefix(p, keys, n);
      var run, before := Run(p, keys), Run(p, keys[..n]);
      assert forall i | 0 <= i < n :: keys[..n][i] == keys[i] && before.decisions[i] == run.decisions[i];
      if k in before.warned {
        var i :| 0 <= i < n && keys[..n][i] == k && before.decisions[i] == Warning;
        assert keys[i] == k && run.decisions[i] == Warning;
      }
    }
  }

  /** A hash is warned about at most once. */
  lemma WarnsOnce<K>(p: Policy, keys: seq<K>, i: nat, j: nat)
    requires i < j < |keys| && keys[i] == keys[j]
    ensures |Run(p, keys).decisions| == |keys|
    ensures !(Run(p, keys).decisions[i] == Warning && Run(p, keys).decisions[j] == Warning)
  {
    hide Tail;
    RunPrefix(p, keys, j + 1);
    RunPrefix(p, keys, j);
    RunPrefix(p, keys[..j + 1], j);
    WarnedIsRecorded(p, keys[..j], keys[j]);
    assert keys[..j + 1][..j] == keys[..j];
    assert keys[..j][i] == keys[j];
    assert Run(p, keys).decisions[i] == Run(p, keys).decisions[..j][i];
    assert Run(p, keys).decisions[j] == Run(p, keys).decisions[..j + 1][j];
  }

  /** Evaluation `i` warns exactly when its hash occurs often enough for a warning but not for a stop
      among the last `Window()` hashes, itself included, and was not warned about before. */
  lemma WarnsExactly<K>(p: Policy, keys: seq<K>, i: nat)
    requires i < |keys|
    ensures |Run(p, keys).decisions| == |keys|
    ensures Run(p, keys).decisions[i] == Warning <==>
      && p.Warn() <= Count(Tail(keys[..i + 1], p.Window()), keys[i]) < p.Hard()
      && forall j | 0 <= j < i && keys[j] == keys[i] :: Run(p, keys).decisions[j] != Warning
  {
    hide Tail;
    RunPrefix(p, keys, i + 1);
    RunPrefix(p, keys, i);
    RunPrefix(p, keys[..i + 1], i);
    HistoryIsTheWindow(p, keys[..i + 1]);
    WarnedIsRecorded(p, keys[..i], keys[i]);
    assert keys[..i + 1][..i] == keys[..i];
    assert Run(p, keys).decisions[i] == Run(p, keys).decisions[..i + 1][i];
    assert forall j | 0 <= j < i :: keys[..i][j] == keys[j];
    assert forall j | 0 <= j < i :: Run(p, keys[..i]).decisions[j] == Run(p, keys).decisions[j];
  }

  ghost predicate NeverStops<K>(p: Policy, keys: seq<K>) {
    HardStop !in Run(p, keys).decisions
  }

  lemma NeverStopsBefore<K>(p: Policy, keys: seq<K>)
    requires keys != [] && NeverStops(p, keys)
    ensures NeverStops(p, keys[..|keys| - 1])
    ensures Judge(p, Run(p, keys).history, Run(p, keys[..|keys| - 1]).warned, keys[|keys| - 1]) != HardStop
  {
    RunPrefix(p, keys, |keys| - 1);
    var run := Run(p, keys);
    assert run.decisions[|keys| - 1] != HardStop;
    forall d | d in Run(p, keys[..|keys| - 1]).decisions ensures d in run.decisions {
    }
  }

  /** While nothing has been stopped, a hash that fills the window to the warning threshold has
      been warned about, and no hash fills it to the limit. */
  lemma {:induction false} WarnedInTime<K(!new)>(p: Policy, keys: seq<K>)
    requires NeverStops(p, keys)
    ensures forall k :: Count(Run(p, keys).history, k) < p.Hard()
    ensures forall k | Count(Run(p, keys).history, k) >= p.Warn() :: k in Run(p, keys).warned
    decreases |keys|
  {
    hide NeverStops, Tail;
    if keys != [] {
      var n := |keys| - 1;
      NeverStopsBefore(p, keys);
      WarnedInTime(p, keys[..n]);
      var before, run := Run(p, keys[..n]), Run(p, keys);
      forall k ensures Count(run.history, k) < p.Hard() && (Count(run.history, k) >= p.Warn() ==> k in run.warned) {
        CountTail(before.history + [keys[n]], p.Window(), k);
        assert (before.history + [keys[n]])[..|before.history|] == before.history;
      }
    }
  }

  /** When warnings come below the limit, the first hash that stops a run was warned about
      before. */
  lemma WarnedBeforeStopped<K(!new)>(p: Policy, keys: seq<K>)
    requires p.Warn() < p.Hard() && keys != [] && NeverStops(p, keys[..|keys| - 1])
    requires |Run(p, keys).decisions| == |keys| && Run(p, keys).decisions[|keys| - 1] == HardStop
    ensures exists i :: 0 <= i < |keys| - 1 && keys[i] == keys[|keys| - 1] && Run(p, keys).decisions[i] == Warning
  {
    hide NeverStops, Tail;
    var n := |keys| - 1;
    var k, before := keys[n], Run(p, keys[..n]);
    WarnedInTime(p, keys[..n]);
    CountTail(before.history + [k], p.Window(), k);
    assert (before.history + [k])[..|before.history|] == before.history;
    assert k in before.warned;
    WarnedIsRecorded(p, keys[..n], k);
    RunPrefix(p, keys, n);
    var i :| 0 <= i < n && keys[..n][i] == k && before.decisions[i] == Warning;
    assert keys[i] == k && Run(p, keys).decisions[i] == Warning;
  }

  // ---- a loop over few hashes is stopped ----------------------------------------------------

  function Without<K(==)>(s: seq<K>, k: K): (r: seq<K>)
    ensures forall x | x in r :: x in s && x != k
  {
    if s == [] then [] else Without(s[..|s| - 1], k) + if s[|s| - 1] == k then [] else [s[|s| - 1]]
  }

  lemma {:induction false} WithoutCounts<K>(s: seq<K>, k: K, x: K)
    ensures |Without(s, k)| == |s| - Count(s, k)
    ensures Count(Without(s, k), x) <= Count(s, x)
    decreases |s|
  {
    if s != [] {
      var n := |s| - 1;
      WithoutCounts(s[..n], k, x);
      CountConcat(Without(s[..n], k), if s[n] == k then [] else [s[n]], x);
      assert s[n] != k ==> [s[n]][..0] == [];
      assert s[n] != k ==> Count([s[n]], x) == if s[n] == x then 1 else 0;
    }
  }

  /** n * most, added up. */
  function Times(n: nat, most: nat): nat {
    if n == 0 then 0 else Times(n - 1, most) + most
  }

  lemma {:induction false} TimesIsProduct(n: nat, most: nat)
    ensures Times(n, most) == n * most
  {
    if n > 0 {
      TimesIsProduct(n - 1, most);
      assert n * most == (n - 1) * most + most;
    }
  }

  /** Few distinct hashes, each rare, make a short sequence. */
  lemma {:induction false} PigeonHole<K(!new)>(s: seq<K>, distinct: set<K>, most: nat)
    requires forall x | x in s :: x in distinct
    requires forall x :: Count(s, x) <= most
    ensures |s| <= Times(|distinct|, most)
    decreases |distinct|
  {
    hide Count, Without;
    if s == [] {
    } else {
      var k := s[0];
      assert k in s && k in distinct;
      forall x ensures Count(Without(s, k), x) <= most {
        WithoutCounts(s, k, x);
      }
      PigeonHole(Without(s, k), distinct - {k}, most);
      WithoutCounts(s, k, k);
      assert |distinct| == |distinct - {k}| + 1;
    }
  }

  /** A run over at most `n` different hashes is stopped within n * (Hard() - 1) + 1 evaluations,
      if the window is that long. */
  lemma FewHashesAreStopped<K(!new)>(p: Policy, keys: seq<K>, distinct: set<K>)
    requires forall k | k in keys :: k in distinct
    requires |distinct| * (p.Hard() - 1) + 1 <= p.Window()
    requires |keys| >= |distinct| * (p.Hard() - 1) + 1
    ensures |Run(p, keys).decisions| == |keys|
    ensures exists i :: 0 <= i <= |distinct| * (p.Hard() - 1) && Run(p, keys).decisions[i] == HardStop
  {
    hide Run, Times;
    TimesIsProduct(|distinct|, p.Hard() - 1);
    var n := Times(|distinct|, p.Hard() - 1) + 1;
    RunPrefix(p, keys, n);
    forall k | k in keys[..n] ensures k in distinct {
    }
    var i := StoppedByThen(p, keys[..n], distinct);
    assert Run(p, keys).decisions[i] == HardStop;
  }

  lemma StoppedByThen<K(!new)>(p: Policy, keys: seq<K>, distinct: set<K>) returns (i: nat)
    requires forall k | k in keys :: k in distinct
    requires Times(|distinct|, p.Hard() - 1) < |keys| <= p.Window()
    ensures |Run(p, keys).decisions| == |keys| && i < |keys| && Run(p, keys).decisions[i] == HardStop
  {
    hide Run, Count, Times;
    RunPrefix(p, keys, 0);
    if NeverStops(p, keys) {
      WarnedInTime(p, keys);
      HistoryIsTheWindow(p, keys);
      PigeonHole(keys, distinct, p.Hard() - 1);
      assert false;
    }
    i :| 0 <= i < |keys| && Run(p, keys).decisions[i] == HardStop;
  }

  // ---- and a shorter window lets it go on for ever ------------------------------------------

  function Residue(i: nat, n: nat): (r: nat)
    requires n > 0
    ensures r < n
  {
    if i < n then i else Residue(i - n, n)
  }

  /** The hashes 0, 1, ..., n - 1 over and over. */
  function Cycle(n: nat, length: nat): (s: seq<nat>)
    requires n > 0
    ensures |s| == length && forall i | 0 <= i < length :: s[i] == Residue(i, n)
  {
    seq(length, i requires 0 <= i => Residue(i, n))
  }

  lemma {:induction false} NotTwiceInPeriod(i: nat, j: nat, n: nat)
    requires n > 0 && i < j < i + n
    ensures Residue(i, n) != Residue(j, n)
  {
    if i >= n {
      NotTwiceInPeriod(i - n, j - n, n);
    }
  }

  lemma {:induction false} SpreadCount(s: seq<nat>, k: nat)
    requires forall i, j | 0 <= i < j < |s| :: s[i] != s[j]
    ensures Count(s, k) <= 1
    ensures Count(s, k) == 1 ==> k in s
    decreases |s|
  {
    if s != [] {
      SpreadCount(s[..|s| - 1], k);
      if s[|s| - 1] == k {
        assert forall i | 0 <= i < |s| - 1 :: s[..|s| - 1][i] == s[i] && s[i] != k;
      }
    }
  }

  /** One period holds each hash at most once. */
  lemma PeriodCount(n: nat, length: nat, from: nat, to: nat, k: nat)
    requires n > 0 && from <= to <= length && to - from <= n
    ensures Count(Cycle(n, length)[from..to], k) <= 1
  {
    hide Count;
    var s := Cycle(n, length)[from..to];
    forall i, j | 0 <= i < j < |s| ensures s[i] != s[j] {
      NotTwiceInPeriod(from + i, from + j, n);
    }
    SpreadCount(s, k);
  }

  /** A stretch of `blocks` periods or less holds each hash at most `blocks` times. */
  lemma {:induction false} CycleCount(n: nat, length: nat, from: nat, blocks: nat, k: nat)
    requires n > 0 && from <= length && length - from <= Times(blocks, n)
    ensures Count(Cycle(n, length)[from..], k) <= blocks
    decreases blocks
  {
    hide Count, Cycle;
    var s := Cycle(n, length);
    if blocks == 0 {
      assert s[from..] == [];
      EmptyCount(k);
    } else {
      var to := if length - from <= n then length else from + n;
      PeriodCount(n, length, from, to, k);
      CycleCount(n, length, to, blocks - 1, k);
      assert s[from..] == s[from..to] + s[to..];
      CountConcat(s[from..to], s[to..], k);
    }
  }

  lemma EmptyCount(k: nat)
    ensures Count<nat>([], k) == 0
  {
  }

  /** With a window of n * (Hard() - 1) or less the cycle over n hashes is never stopped, however
      long it runs, so the bound on the window is exact. */
  lemma ShortWindowNeverStops(p: Policy, n: nat, length: nat)
    requires n > 0 && p.Window() <= n * (p.Hard() - 1)
    ensures NeverStops(p, Cycle(n, length))
  {
    hide Count, Cycle, Run;
    var keys := Cycle(n, length);
    RunPrefix(p, keys, length);
    TimesIsProduct(p.Hard() - 1, n);
    assert n * (p.Hard() - 1) == (p.Hard() - 1) * n;
    forall i | 0 <= i < length ensures Run(p, keys).decisions[i] != HardStop {
      StopsExactlyAtTheLimit(p, keys, i);
      assert keys[..i + 1] == Cycle(n, i + 1);
      var from := if i + 1 > p.Window() then i + 1 - p.Window() else 0;
      assert Tail(keys[..i + 1], p.Window()) == Cycle(n, i + 1)[from..];
      CycleCount(n, i + 1, from, p.Hard() - 1, keys[i]);
    }
  }
}
