/** The budget for `read_file` calls in one agent run: a call limit, a character limit, and a
    cache of completed reads (pkg/agent/react.go). */
module ReadBudget {
  import opened GoStrings
  import opened ToolCalls
  import opened Wrappers

  datatype BudgetData = BudgetData(callsUsed: nat, callsLimit: int, charsUsed: nat, charsLimit: int, perCallLimit: int)

  /** A tool result with the two notes the budget adds to its data. */
  datatype ReadResult = ReadResult(
    callID: string, toolName: string, status: string, content: string, error: string, duration: int,
    budget: Option<BudgetData>, cacheKey: Option<string>)

  // ---- the cache key ------------------------------------------------------------------------

  /** Arguments decoded from JSON carry numbers as floats. */
  datatype Arg = Missing | Text(text: string) | Number(value: int) | Float(number: real)

  /** Go's conversion of a float to an integer drops the fraction. */
  function Truncated(x: real): (n: int)
    ensures x >= 0.0 ==> n as real <= x < n as real + 1.0
    ensures x < 0.0 ==> n as real - 1.0 < x <= n as real
  {
    if x >= 0.0 then x.Floor else -((-x).Floor)
  }

  datatype ReadCall = ReadCall(id: string, name: string, args: map<string, Arg>)

  function ArgOf(call: ReadCall, key: string): Arg {
    if key in call.args then call.args[key] else Missing
  }

  function IntFromAny(arg: Arg): int {
    match arg
    case Number(n) => n
    case Float(x) => Truncated(x)
    case Text(s) => (match Atoi(TrimSpace(s)) case Some(n) => n case None => 0)
    case Missing => 0
  }

  function LineArg(call: ReadCall, snake: string, camel: string): int {
    IntFromAny(if ArgOf(call, snake) == Missing then ArgOf(call, camel) else ArgOf(call, snake))
  }

  function PathOf(call: ReadCall): string {
    match ArgOf(call, "path") case Text(s) => TrimSpace(s) case _ => ""
  }

  function RangeKey(path: string, start: int, end: int): string {
    path + "|" + IntToDecimal(start) + "|" + IntToDecimal(end)
  }

  function ReadFileDedupeKey(call: ReadCall): string {
    if PathOf(call) == "" then ""
    else RangeKey(PathOf(call), LineArg(call, "start_line", "startLine"), LineArg(call, "end_line", "endLine"))
  }

  lemma DecimalHasNoBar(n: int)
    ensures '|' !in IntToDecimal(n)
  {
    hide NatToDecimal;
    assert forall c | IsDigit(c) :: c != '|';
  }

  lemma BarIsNoLater<E>(a: seq<E>, x: seq<E>, b: seq<E>, y: seq<E>, bar: E)
    requires bar !in x && a + [bar] + x == b + [bar] + y
    ensures |b| <= |a|
  {
    var s := a + [bar] + x;
    forall j | |a| < j < |s| ensures s[j] != bar {
      assert s[j] == x[j - |a| - 1];
    }
    assert (b + [bar] + y)[|b|] == bar;
  }

  /** Texts joined by a bar, with none in the second, fall apart in one way only. */
  lemma SplitAtLastBar<E>(a: seq<E>, x: seq<E>, b: seq<E>, y: seq<E>, bar: E)
    requires bar !in x && bar !in y && a + [bar] + x == b + [bar] + y
    ensures a == b && x == y
  {
    BarIsNoLater(a, x, b, y, bar);
    BarIsNoLater(b, y, a, x, bar);
    assert a == (a + [bar] + x)[..|a|] && b == (b + [bar] + y)[..|b|];
    assert x == (a + [bar] + x)[|a| + 1..] && y == (b + [bar] + y)[|b| + 1..];
  }

  /** Two calls share a cache key exactly when they read the same lines of the same path. */
  lemma KeyIsInjective(a: ReadCall, b: ReadCall)
    requires PathOf(a) != "" && PathOf(b) != ""
    ensures ReadFileDedupeKey(a) == ReadFileDedupeKey(b) <==>
      PathOf(a) == PathOf(b) &&
      LineArg(a, "start_line", "startLine") == LineArg(b, "start_line", "startLine") &&
      LineArg(a, "end_line", "endLine") == LineArg(b, "end_line", "endLine")
    ensures ReadFileDedupeKey(a) != ""
  {
    hide IntToDecimal, PathOf, LineArg;
    var s, t := LineArg(a, "start_line", "startLine"), LineArg(b, "start_line", "startLine");
    var e, f := LineArg(a, "end_line", "endLine"), LineArg(b, "end_line", "endLine");
    RangeKeyIsInjective(PathOf(a), s, e, PathOf(b), t, f);
  }

  lemma RangeKeyIsInjective(p: string, s: int, e: int, q: string, t: int, f: int)
    ensures RangeKey(p, s, e) == RangeKey(q, t, f) <==> p == q && s == t && e == f
    ensures RangeKey(p, s, e) != ""
  {
    hide IntToDecimal;
    if RangeKey(p, s, e) == RangeKey(q, t, f) {
      DecimalHasNoBar(s);
      DecimalHasNoBar(t);
      DecimalHasNoBar(e);
      DecimalHasNoBar(f);
      SplitAtLastBar(p + "|" + IntToDecimal(s), IntToDecimal(e), q + "|" + IntToDecimal(t), IntToDecimal(f), '|');
      SplitAtLastBar(p, IntToDecimal(s), q, IntToDecimal(t), '|');
      IntToDecimalInjective(s, t);
      IntToDecimalInjective(e, f);
    }
  }

  /** The line an argument names: an integer itself, a float without its fraction, a text the
      number it spells.  Anything else names line 0. */
  ghost predicate ArgNames(arg: Arg, n: int) {
    match arg
    case Number(value) => n == value
    case Float(x) =>
      if x >= 0.0 then n as real <= x < n as real + 1.0 else n as real - 1.0 < x <= n as real
    case Text(text) => Spells(TrimSpace(text), n) || (n == 0 && forall m :: !Spells(TrimSpace(text), m))
    case Missing => n == 0
  }

  /** The argument under the first key counts, the one under the second when that is missing. */
  ghost predicate NamesLine(call: ReadCall, snake: string, camel: string, n: int) {
    if snake in call.args && call.args[snake] != Missing then ArgNames(call.args[snake], n)
    else if camel in call.args then ArgNames(call.args[camel], n)
    else n == 0
  }

  predicate NamesPath(call: ReadCall, path: string) {
    path != "" && "path" in call.args && call.args["path"].Text? && TrimSpace(call.args["path"].text) == path
  }

  ghost predicate ReadsLines(call: ReadCall, path: string, start: int, end: int) {
    NamesPath(call, path) && NamesLine(call, "start_line", "startLine", start) &&
    NamesLine(call, "end_line", "endLine", end)
  }

  lemma ArgNamesOne(arg: Arg, n: int)
    ensures ArgNames(arg, n) <==> IntFromAny(arg) == n
  {
    hide Spells, Atoi, TrimSpace;
    match arg
    case Text(text) =>
      AtoiReads(TrimSpace(text), n);
      forall m ensures Atoi(TrimSpace(text)) == Some(m) <==> Spells(TrimSpace(text), m) {
        AtoiReads(TrimSpace(text), m);
      }
    case _ =>
  }

  lemma LineNamed(call: ReadCall, snake: string, camel: string, n: int)
    ensures NamesLine(call, snake, camel, n) <==> LineArg(call, snake, camel) == n
  {
    hide ArgNames, IntFromAny;
    ArgNamesOne(ArgOf(call, snake), n);
    ArgNamesOne(ArgOf(call, camel), n);
    assert ArgNames(Missing, n) <==> n == 0 by { MissingNamesZero(n); }
  }

  lemma MissingNamesZero(n: int)
    ensures ArgNames(Missing, n) <==> n == 0
  {
  }

  lemma KeyOfLines(call: ReadCall, path: string, start: int, end: int)
    requires NamesPath(call, path)
    ensures ReadsLines(call, path, start, end) <==> ReadFileDedupeKey(call) == RangeKey(path, start, end)
  {
    hide IntToDecimal, NamesLine, LineArg, RangeKey;
    LineNamed(call, "start_line", "startLine", start);
    LineNamed(call, "end_line", "endLine", end);
    RangeKeyIsInjective(PathOf(call), LineArg(call, "start_line", "startLine"), LineArg(call, "end_line", "endLine"),
                        path, start, end);
  }

  lemma PathIsNamed(call: ReadCall)
    requires ReadFileDedupeKey(call) != ""
    ensures NamesPath(call, PathOf(call))
  {
    hide TrimSpace, LineArg, RangeKey;
  }

  /** Two calls that name their paths and lines share a cache key exactly when paths, first lines
      and last lines agree. */
  lemma SameLinesShareTheKey(a: ReadCall, p: string, s: int, e: int, b: ReadCall, q: string, t: int, f: int)
    requires ReadsLines(a, p, s, e) && ReadsLines(b, q, t, f)
    ensures ReadFileDedupeKey(a) == ReadFileDedupeKey(b) <==> p == q && s == t && e == f
  {
    hide ReadsLines, ReadFileDedupeKey, RangeKey;
    assert NamesPath(a, p) && NamesPath(b, q) by { LinesNameThePath(a, p, s, e); LinesNameThePath(b, q, t, f); }
    KeyOfLines(a, p, s, e);
    KeyOfLines(b, q, t, f);
    RangeKeyIsInjective(p, s, e, q, t, f);
  }

  lemma LinesNameThePath(call: ReadCall, path: string, start: int, end: int)
    requires ReadsLines(call, path, start, end)
    ensures NamesPath(call, path)
  {
  }

  // ---- truncation ---------------------------------------------------------------------------

  function ExhaustedMarker(reason: string): string {
    "[truncated by runtime budget: " + TrimSpace(reason) + "]"
  }

  function CutMarker(reason: string): string {
    "\n... [truncated by runtime budget: " + TrimSpace(reason) + "] ..."
  }

  /** What the reader is told when content was cut, and when nothing is left to show. */
  lemma MarkersSayWhy(reason: string)
    ensures ExhaustedMarker(reason) == "[truncated by runtime budget: " + TrimSpace(reason) + "]"
    ensures CutMarker(reason) == "\n... [truncated by runtime budget: " + TrimSpace(reason) + "] ..."
  {
    hide TrimSpace;
  }

  function TruncateWithBudgetMarker(content: string, rawLimit: int, reason: string): string {
    var limit := if rawLimit < 0 then 0 else rawLimit;
    if |content| <= limit then content
    else if limit == 0 then ExhaustedMarker(reason)
    else
      var keep := limit - |CutMarker(reason)|;
      if keep <= 0 then content[..limit] else content[..keep] + CutMarker(reason)
  }

  /** Content within the limit is untouched; longer content comes out at exactly the limit, or as
      the exhausted marker when nothing is left, and starts with the content's own beginning. */
  lemma TruncatedLength(content: string, limit: int, reason: string)
    ensures var out := TruncateWithBudgetMarker(content, limit, reason);
      && (|content| <= limit || content == "" ==> out == content)
      && (|content| > limit > 0 ==> |out| == limit)
      && (|content| > 0 >= limit ==> out == ExhaustedMarker(reason))
      && (|content| > limit > 0 ==> exists n: nat :: n <= limit && n <= |content| && content[..n] == out[..n] &&
                                      (n == limit || out[n..] == CutMarker(reason)))
  {
    hide CutMarker, ExhaustedMarker;
    var out := TruncateWithBudgetMarker(content, limit, reason);
    if |content| > limit > 0 {
      var keep := limit - |CutMarker(reason)|;
      if keep <= 0 {
        assert content[..limit] == out[..limit];
      } else {
        assert content[..keep] == out[..keep] && out[keep..] == CutMarker(reason);
      }
    }
  }

  // ---- the policy ---------------------------------------------------------------------------

  datatype Policy = Policy(maxCallsPerRun: int, maxCharsPerRun: int, maxCharsPerCall: int)

  function PerCallReason(p: Policy): string {
    "read_file per-call budget: showing first " + IntToDecimal(p.maxCharsPerCall) + " chars"
  }

  function TotalReason(p: Policy): string {
    "read_file total budget reached (" + IntToDecimal(p.maxCharsPerRun) + " chars per run)"
  }

  function ExceededMessage(p: Policy, callsUsed: nat): string {
    "read_file call budget exceeded (" + IntToDecimal(callsUsed) + "/" + IntToDecimal(p.maxCallsPerRun) + "). " +
    "Narrow the request with start_line/end_line or use grep/glob before reading more files."
  }

  /** What the caller gets to see of the content when `used` characters are spent. */
  function Charged(p: Policy, used: nat, content: string): string {
    var once := if p.maxCharsPerCall > 0 then TruncateWithBudgetMarker(content, p.maxCharsPerCall, PerCallReason(p))
      else content;
    if p.maxCharsPerRun > 0 then TruncateWithBudgetMarker(once, p.maxCharsPerRun - used, TotalReason(p)) else once
  }

  datatype State = State(callsUsed: nat, charsUsed: nat, cache: map<string, ReadResult>)

  function BudgetOf(p: Policy, s: State): BudgetData {
    BudgetData(s.callsUsed, p.maxCallsPerRun, s.charsUsed, p.maxCharsPerRun, p.maxCharsPerCall)
  }

  /** `beforeCall`: the result served without reading, if any. */
  function Before(p: Policy, s: State, call: ReadCall): Option<ReadResult> {
    var key := ReadFileDedupeKey(call);
    if key != "" && key in s.cache then
      Some(s.cache[key].(callID := TrimSpace(call.id), toolName := TrimSpace(call.name), duration := 0,
                         cacheKey := Some(key), budget := Some(BudgetOf(p, s))))
    else if p.maxCallsPerRun <= 0 || s.callsUsed < p.maxCallsPerRun then None
    else
      var message := ExceededMessage(p, s.callsUsed);
      Some(ReadResult(call.id, call.name, FAILED, message, message, 0,
                      Some(BudgetData(s.callsUsed, p.maxCallsPerRun, 0, 0, 0)), None))
  }

  /** `afterCall`: the state and the result once a read was made. */
  function After(p: Policy, s: State, call: ReadCall, result: ReadResult): (State, ReadResult) {
    var shown := result.(content := Charged(p, s.charsUsed, result.content));
    var key := ReadFileDedupeKey(call);
    var cache := if result.status == COMPLETED && key != "" then s.cache[key := shown.(callID := "", duration := 0)]
      else s.cache;
    var after := State(s.callsUsed + 1, s.charsUsed + |shown.content|, cache);
    (after, shown.(budget := Some(BudgetOf(p, after))))
  }

  /** Without limits content is shown whole, and so is content that fits both of them; otherwise what
      is shown is cut by the one or the other. */
  lemma ChargedContent(p: Policy, used: nat, content: string)
    ensures ((p.maxCharsPerCall <= 0 || |content| <= p.maxCharsPerCall) &&
             (p.maxCharsPerRun <= 0 || used + |content| <= p.maxCharsPerRun)) ==>
            Charged(p, used, content) == content
    ensures p.maxCharsPerRun <= 0 < p.maxCharsPerCall < |content| ==> |Charged(p, used, content)| == p.maxCharsPerCall
    ensures p.maxCharsPerCall <= 0 && 0 < p.maxCharsPerRun - used < |content| ==>
            |Charged(p, used, content)| == p.maxCharsPerRun - used
  {
    hide CutMarker, ExhaustedMarker, PerCallReason, TotalReason, TruncateWithBudgetMarker;
    TruncatedLength(content, p.maxCharsPerCall, PerCallReason(p));
    TruncatedLength(content, p.maxCharsPerRun - used, TotalReason(p));
  }

  lemma ReasonsSay(p: Policy)
    ensures PerCallReason(p) ==
            "read_file per-call budget: showing first " + IntToDecimal(p.maxCharsPerCall) + " chars"
    ensures TotalReason(p) == "read_file total budget reached (" + IntToDecimal(p.maxCharsPerRun) + " chars per run)"
  {
    hide IntToDecimal;
  }

  /** A call whose lines are cached is answered from there, under its own trimmed names and with the
      counters as they stand. */
  lemma AnsweredFromCache(p: Policy, s: State, call: ReadCall)
    requires ReadFileDedupeKey(call) != "" && ReadFileDedupeKey(call) in s.cache
    ensures var cached := s.cache[ReadFileDedupeKey(call)];
      Before(p, s, call) == Some(ReadResult(
        TrimSpace(call.id), TrimSpace(call.name), cached.status, cached.content, cached.error, 0,
        Some(BudgetData(s.callsUsed, p.maxCallsPerRun, s.charsUsed, p.maxCharsPerRun, p.maxCharsPerCall)),
        Some(ReadFileDedupeKey(call))))
  {
    hide TrimSpace, ReadFileDedupeKey, ExceededMessage;
  }

  /** Any other call is refused once the limit is used up, with the numbers that say so, and made
      otherwise. */
  lemma RefusedOrMade(p: Policy, s: State, call: ReadCall)
    requires ReadFileDedupeKey(call) !in s.cache
    ensures 0 < p.maxCallsPerRun <= s.callsUsed ==>
      Before(p, s, call) == Some(ReadResult(
        call.id, call.name, FAILED, ExceededMessage(p, s.callsUsed), ExceededMessage(p, s.callsUsed), 0,
        Some(BudgetData(s.callsUsed, p.maxCallsPerRun, 0, 0, 0)), None))
    ensures p.maxCallsPerRun <= 0 || s.callsUsed < p.maxCallsPerRun ==> Before(p, s, call) == None
  {
    hide TrimSpace, ReadFileDedupeKey, ExceededMessage;
  }

  /** A refusal names the calls made and allowed, and advises what to do instead. */
  lemma RefusalSays(p: Policy, callsUsed: nat)
    ensures ExceededMessage(p, callsUsed) ==
      "read_file call budget exceeded (" + IntToDecimal(callsUsed) + "/" + IntToDecimal(p.maxCallsPerRun) + "). " +
      "Narrow the request with start_line/end_line or use grep/glob before reading more files."
  {
    hide IntToDecimal;
  }

  /** A call that is not answered is made unless a guardrail answers it; a read keeps its result but for
      the content, and reports the counters that now include it. */
  lemma ReadReports(p: Policy, s: State, a: Attempt)
    requires Before(p, s, a.call) == None
    ensures var (after, outcome) := Perform(p, s, a);
      if a.allowed then
        && outcome.Read? && after.callsUsed == s.callsUsed + 1
        && outcome.result == a.result.(content := outcome.result.content, budget := outcome.result.budget)
        && outcome.result.budget == Some(BudgetData(s.callsUsed + 1, p.maxCallsPerRun,
                                                    s.charsUsed + |outcome.result.content|, p.maxCharsPerRun,
                                                    p.maxCharsPerCall))
        && outcome.result.content == Charged(p, s.charsUsed, a.result.content)
      else outcome == Guarded && after == s
  {
    hide Charged, ReadFileDedupeKey, Before;
  }

  class ReadFileBudgetState {
    var callsUsed: nat
    var charsUsed: nat
    var callResult: map<string, ReadResult>

    constructor ()
      ensures Value() == State(0, 0, map[])
    {
      callsUsed, charsUsed, callResult := 0, 0, map[];
    }

    ghost function Value(): State
      reads this
    {
      State(callsUsed, charsUsed, callResult)
    }

    method BeforeCall(p: Policy, call: ReadCall) returns (served: Option<ReadResult>)
      ensures served == Before(p, Value(), call)
    {
      hide TrimSpace, ReadFileDedupeKey, ExceededMessage;
      var key := ReadFileDedupeKey(call);
      if key != "" {
        if key in callResult {
          var result := callResult[key];
          result := result.(callID := TrimSpace(call.id), toolName := TrimSpace(call.name), duration := 0);
          result := result.(cacheKey := Some(key));
          result := result.(budget :=
            Some(BudgetData(callsUsed, p.maxCallsPerRun, charsUsed, p.maxCharsPerRun, p.maxCharsPerCall)));
          return Some(result);
        }
      }
      if p.maxCallsPerRun <= 0 {
        return None;
      }
      if callsUsed < p.maxCallsPerRun {
        return None;
      }
      var message := ExceededMessage(p, callsUsed);
      return Some(ReadResult(call.id, call.name, FAILED, message, message, 0,
                             Some(BudgetData(callsUsed, p.maxCallsPerRun, 0, 0, 0)), None));
    }

    method AfterCall(p: Policy, call: ReadCall, result: ReadResult) returns (shown: ReadResult)
      modifies this
      ensures (Value(), shown) == After(p, old(Value()), call, result)
    {
      hide TrimSpace, ReadFileDedupeKey, TruncateWithBudgetMarker, PerCallReason, TotalReason;
      callsUsed := callsUsed + 1;
      var content := result.content;
      if p.maxCharsPerCall > 0 {
        content := TruncateWithBudgetMarker(content, p.maxCharsPerCall, PerCallReason(p));
      }
      if p.maxCharsPerRun > 0 {
        var remaining := p.maxCharsPerRun - charsUsed;
        NegativeIsZero(content, remaining, TotalReason(p));
        if remaining < 0 {
          remaining := 0;
        }
        content := TruncateWithBudgetMarker(content, remaining, TotalReason(p));
      }
      shown := result.(content := content);
      charsUsed := charsUsed + |content|;
      if shown.status == COMPLETED {
        var key := ReadFileDedupeKey(call);
        if key != "" {
          callResult := callResult[key := shown.(callID := "", duration := 0)];
        }
      }
      shown := shown.(budget :=
        Some(BudgetData(callsUsed, p.maxCallsPerRun, charsUsed, p.maxCharsPerRun, p.maxCharsPerCall)));
    }

    /** The `read_file` part of `performToolCall`. */
    method PerformToolCall(p: Policy, a: Attempt) returns (outcome: Outcome)
      modifies this
      ensures (Value(), outcome) == Perform(p, old(Value()), a)
    {
      hide Before, After;
      var served := BeforeCall(p, a.call);
      if served.Some? {
        return Served(served.value);
      }
      if !a.allowed {
        return Guarded;
      }
      var shown := AfterCall(p, a.call, a.result);
      return Read(shown);
    }
  }

  lemma NegativeIsZero(content: string, limit: int, reason: string)
    ensures limit < 0 ==>
            TruncateWithBudgetMarker(content, limit, reason) == TruncateWithBudgetMarker(content, 0, reason)
  {
  }

  // ---- a run of reads -----------------------------------------------------------------------

  /** One `read_file` call and the result its tool would give; `allowed` is false when a guardrail
      answers in place of the tool, outside the budget. */
  datatype Attempt = Attempt(call: ReadCall, allowed: bool, result: ReadResult)

  datatype Outcome = Served(result: ReadResult) | Guarded | Read(result: ReadResult)

  datatype Trace = Trace(state: State, outcomes: seq<Outcome>)

  function Perform(p: Policy, s: State, a: Attempt): (State, Outcome) {
    match Before(p, s, a.call)
    case Some(served) => (s, Served(served))
    case None =>
      if !a.allowed then (s, Guarded)
      else
        var (after, shown) := After(p, s, a.call, a.result);
        (after, Read(shown))
  }

  function Run(p: Policy, attempts: seq<Attempt>): Trace {
    if attempts == [] then Trace(State(0, 0, map[]), [])
    else
      var before := Run(p, attempts[..|attempts| - 1]);
      var (after, outcome) := Perform(p, before.state, attempts[|attempts| - 1]);
      Trace(after, before.outcomes + [outcome])
  }

  function Reads(outcomes: seq<Outcome>): nat {
    if outcomes == [] then 0
    else Reads(outcomes[..|outcomes| - 1]) + if outcomes[|outcomes| - 1].Read? then 1 else 0
  }

  function CharsRead(outcomes: seq<Outcome>): nat {
    if outcomes == [] then 0
    else
      CharsRead(outcomes[..|outcomes| - 1]) +
      if outcomes[|outcomes| - 1].Read? then |outcomes[|outcomes| - 1].result.content| else 0
  }

  /** One read takes the total to the run's limit at most, or adds one exhausted marker. */
  lemma ChargedLength(p: Policy, used: nat, content: string)
    requires p.maxCharsPerRun > 0
    ensures var out := |Charged(p, used, content)|;
            out <= p.maxCharsPerRun - used || out <= |ExhaustedMarker(TotalReason(p))|
    ensures p.maxCharsPerRun > used ==> |Charged(p, used, content)| <= p.maxCharsPerRun - used
  {
    hide TruncateWithBudgetMarker, PerCallReason, TotalReason, ExhaustedMarker;
    var once := if p.maxCharsPerCall > 0 then TruncateWithBudgetMarker(content, p.maxCharsPerCall, PerCallReason(p))
      else content;
    TruncatedLength(once, p.maxCharsPerRun - used, TotalReason(p));
  }

  /** The counters count what was returned by reads, and nothing else; with positive limits there
      are no more reads than allowed, and the characters stay within the run's limit plus one
      exhausted marker a read. */
  lemma {:induction false} BudgetHolds(p: Policy, attempts: seq<Attempt>)
    ensures var t := Run(p, attempts);
      && |t.outcomes| == |attempts|
      && t.state.callsUsed == Reads(t.outcomes)
      && t.state.charsUsed == CharsRead(t.outcomes)
      && (p.maxCallsPerRun > 0 ==> t.state.callsUsed <= p.maxCallsPerRun)
      && (p.maxCharsPerRun > 0 ==>
            t.state.charsUsed <= p.maxCharsPerRun + |ExhaustedMarker(TotalReason(p))| * t.state.callsUsed)
    decreases |attempts|
  {
    hide Charged, ExhaustedMarker, TotalReason, ReadFileDedupeKey, ExceededMessage, TrimSpace;
    if attempts != [] {
      var last := |attempts| - 1;
      BudgetHolds(p, attempts[..last]);
      var before, t := Run(p, attempts[..last]), Run(p, attempts);
      assert t.outcomes[..last] == before.outcomes;
      if p.maxCharsPerRun > 0 && t.outcomes[last].Read? {
        ChargedLength(p, before.state.charsUsed, attempts[last].result.content);
        OneMore(|ExhaustedMarker(TotalReason(p))|, before.state.callsUsed);
      }
    }
  }

  lemma OneMore(marker: nat, calls: nat)
    ensures marker * (calls + 1) == marker * calls + marker
    ensures marker * calls >= 0
  {
  }

  predicate CompletedRead(o: Outcome) {
    o.Read? && o.result.status == COMPLETED
  }

  /** The cache holds, for each key, what the one completed read of that key returned. */
  ghost predicate CacheMatches(attempts: seq<Attempt>, outcomes: seq<Outcome>, cache: map<string, ReadResult>)
    requires |attempts| == |outcomes|
  {
    && (forall i | 0 <= i < |attempts| && CompletedRead(outcomes[i]) && ReadFileDedupeKey(attempts[i].call) != "" ::
          CachedFrom(attempts[i], outcomes[i], cache))
    && (forall key | key in cache ::
          exists i :: 0 <= i < |attempts| && CompletedRead(outcomes[i]) && ReadFileDedupeKey(attempts[i].call) == key)
  }

  predicate CachedFrom(a: Attempt, o: Outcome, cache: map<string, ReadResult>) {
    var key := ReadFileDedupeKey(a.call);
    o.Read? && key in cache &&
    cache[key] == o.result.(callID := "", duration := 0, budget := a.result.budget)
  }

  ghost predicate Remembers(s: State, a: Attempt, after: State, o: Outcome) {
    var key := ReadFileDedupeKey(a.call);
    && (o.Read? && key != "" ==> key !in s.cache)
    && (CompletedRead(o) && key != "" ==>
        CachedFrom(a, o, after.cache) && after.cache == s.cache[key := after.cache[key]])
    && (!CompletedRead(o) || key == "" ==> after.cache == s.cache)
  }

  lemma CacheStillMatches(attempts: seq<Attempt>, outcomes: seq<Outcome>, s: State, a: Attempt, after: State,
                          o: Outcome)
    requires |attempts| == |outcomes| && CacheMatches(attempts, outcomes, s.cache) && Remembers(s, a, after, o)
    ensures CacheMatches(attempts + [a], outcomes + [o], after.cache)
  {
    hide ReadFileDedupeKey;
    var more, out := attempts + [a], outcomes + [o];
    assert forall i | 0 <= i < |attempts| :: more[i] == attempts[i] && out[i] == outcomes[i];
    forall key | key in after.cache
      ensures exists i :: 0 <= i < |more| && CompletedRead(out[i]) && ReadFileDedupeKey(more[i].call) == key
    {
      if key in s.cache {
        var i :| 0 <= i < |attempts| && CompletedRead(outcomes[i]) && ReadFileDedupeKey(attempts[i].call) == key;
        assert CompletedRead(out[i]) && ReadFileDedupeKey(more[i].call) == key;
      } else {
        assert CompletedRead(out[|attempts|]) && ReadFileDedupeKey(more[|attempts|].call) == key;
      }
    }
  }

  lemma {:induction false} CacheRemembers(p: Policy, attempts: seq<Attempt>)
    ensures |Run(p, attempts).outcomes| == |attempts|
    ensures CacheMatches(attempts, Run(p, attempts).outcomes, Run(p, attempts).state.cache)
    decreases |attempts|
  {
    hide CacheMatches, Perform, Remembers;
    if attempts == [] {
      EmptyCacheMatches();
    } else {
      var last := |attempts| - 1;
      CacheRemembers(p, attempts[..last]);
      var before := Run(p, attempts[..last]);
      var (after, outcome) := Perform(p, before.state, attempts[last]);
      ReadIsNew(p, before.state, attempts[last]);
      CacheStillMatches(attempts[..last], before.outcomes, before.state, attempts[last], after, outcome);
      assert attempts[..last] + [attempts[last]] == attempts;
    }
  }

  lemma EmptyCacheMatches()
    ensures CacheMatches([], [], map[])
  {
  }

  /** A read is made only for a key that is not cached, and a completed one is cached. */
  lemma ReadIsNew(p: Policy, s: State, a: Attempt)
    ensures Remembers(s, a, Perform(p, s, a).0, Perform(p, s, a).1)
  {
    hide Charged, ReadFileDedupeKey, ExceededMessage, TrimSpace;
  }

  /** Once a read of some lines has completed, asking for them again is answered from the cache:
      the same content, nothing read, and both counters as they were. */
  lemma RepeatIsServed(p: Policy, attempts: seq<Attempt>, i: nat, again: Attempt)
    requires i < |attempts| && |Run(p, attempts).outcomes| == |attempts| && CompletedRead(Run(p, attempts).outcomes[i])
    requires PathOf(again.call) != "" && ReadFileDedupeKey(again.call) == ReadFileDedupeKey(attempts[i].call)
    ensures var t := Run(p, attempts + [again]);
      && t.state == Run(p, attempts).state
      && |t.outcomes| == |attempts| + 1 && t.outcomes[|attempts|].Served?
      && t.outcomes[|attempts|].result.content == Run(p, attempts).outcomes[i].result.content
      && t.outcomes[|attempts|].result.status == COMPLETED
      && t.outcomes[|attempts|].result.cacheKey == Some(ReadFileDedupeKey(again.call))
  {
    hide Charged, ExceededMessage, TrimSpace, RangeKey, PathOf, LineArg;
    KeyIsInjective(again.call, again.call);
    CacheRemembers(p, attempts);
    assert CachedFrom(attempts[i], Run(p, attempts).outcomes[i], Run(p, attempts).state.cache);
    assert (attempts + [again])[..|attempts|] == attempts;
  }

  /** An earlier read of these lines that completed. */
  ghost predicate CompletedLines(a: Attempt, o: Outcome, path: string, start: int, end: int) {
    CompletedRead(o) && ReadsLines(a.call, path, start, end)
  }

  predicate ServedFromCache(o: Outcome) {
    o.Served? && o.result.cacheKey.Some?
  }

  /** In any series a call is served from the cache exactly when some earlier read of the same
      lines of the same path has completed, and then with the content of that read. */
  lemma ServedExactlyTheSameLines(p: Policy, attempts: seq<Attempt>, again: Attempt, path: string, start: int, end: int)
    requires ReadsLines(again.call, path, start, end)
    ensures |Run(p, attempts).outcomes| == |attempts| && |Run(p, attempts + [again]).outcomes| == |attempts| + 1
    ensures var outcomes, last := Run(p, attempts).outcomes, Run(p, attempts + [again]).outcomes[|attempts|];
      && (ServedFromCache(last) <==>
            exists i | 0 <= i < |attempts| :: CompletedLines(attempts[i], outcomes[i], path, start, end))
      && forall i | 0 <= i < |attempts| && CompletedLines(attempts[i], outcomes[i], path, start, end) ::
           last.Served? && last.result.content == outcomes[i].result.content && last.result.status == COMPLETED
  {
    hide Charged, ExceededMessage, TrimSpace, RangeKey, ReadsLines, ReadFileDedupeKey, CacheMatches, NamesPath;
    LinesNameThePath(again.call, path, start, end);
    KeyOfLines(again.call, path, start, end);
    var key := ReadFileDedupeKey(again.call);
    assert key != "" by { RangeKeyIsInjective(path, start, end, path, start, end); }
    CacheRemembers(p, attempts);
    assert (attempts + [again])[..|attempts|] == attempts;
    var t := Run(p, attempts);
    forall i | 0 <= i < |attempts|
      ensures ReadsLines(attempts[i].call, path, start, end) <==> ReadFileDedupeKey(attempts[i].call) == key
    {
      LinesByKey(attempts[i].call, path, start, end);
    }
    CachedByLines(attempts, t.outcomes, t.state.cache, key);
  }

  lemma LinesByKey(call: ReadCall, path: string, start: int, end: int)
    requires path != ""
    ensures ReadsLines(call, path, start, end) <==> ReadFileDedupeKey(call) == RangeKey(path, start, end)
  {
    hide RangeKey, NamesLine, LineArg, IntToDecimal;
    RangeKeyIsInjective(path, start, end, path, start, end);
    if NamesPath(call, path) {
      KeyOfLines(call, path, start, end);
    } else if ReadFileDedupeKey(call) == RangeKey(path, start, end) {
      PathIsNamed(call);
      RangeKeyIsInjective(PathOf(call), LineArg(call, "start_line", "startLine"),
                          LineArg(call, "end_line", "endLine"), path, start, end);
    }
  }

  lemma CachedByLines(attempts: seq<Attempt>, outcomes: seq<Outcome>, cache: map<string, ReadResult>, key: string)
    requires |attempts| == |outcomes| && CacheMatches(attempts, outcomes, cache) && key != ""
    ensures key in cache <==>
            exists i :: 0 <= i < |attempts| && CompletedRead(outcomes[i]) && ReadFileDedupeKey(attempts[i].call) == key
    ensures forall i |
              0 <= i < |attempts| && CompletedRead(outcomes[i]) && ReadFileDedupeKey(attempts[i].call) == key ::
              key in cache && cache[key].content == outcomes[i].result.content &&
              cache[key].status == outcomes[i].result.status
  {
    hide ReadFileDedupeKey;
    forall i | 0 <= i < |attempts| && CompletedRead(outcomes[i]) && ReadFileDedupeKey(attempts[i].call) == key
      ensures CachedFrom(attempts[i], outcomes[i], cache)
    {
    }
  }

  /** Answered with the refusal, and not from the cache. */
  predicate Refused(o: Outcome) {
    o.Served? && o.result.cacheKey == None
  }

  predicate CompletedBefore(attempts: seq<Attempt>, outcomes: seq<Outcome>, call: ReadCall)
    requires |attempts| == |outcomes|
  {
    exists i | 0 <= i < |attempts| ::
      CompletedRead(outcomes[i]) && ReadFileDedupeKey(attempts[i].call) == ReadFileDedupeKey(call)
  }

  /** In any series, a call is refused exactly when the reads made so far use up the call limit
      and none of them completed for the same lines. */
  lemma RefusedExactlyWhenUsedUp(p: Policy, attempts: seq<Attempt>, next: Attempt)
    ensures |Run(p, attempts).outcomes| == |attempts| && |Run(p, attempts + [next]).outcomes| == |attempts| + 1
    ensures var outcomes := Run(p, attempts).outcomes;
      Refused(Run(p, attempts + [next]).outcomes[|attempts|]) <==>
      p.maxCallsPerRun > 0 && Reads(outcomes) == p.maxCallsPerRun &&
      !(ReadFileDedupeKey(next.call) != "" && CompletedBefore(attempts, outcomes, next.call))
  {
    hide Charged, ReadFileDedupeKey, ExceededMessage, TrimSpace, ExhaustedMarker, TotalReason;
    BudgetHolds(p, attempts);
    BudgetHolds(p, attempts + [next]);
    CacheRemembers(p, attempts);
    assert (attempts + [next])[..|attempts|] == attempts;
    if ReadFileDedupeKey(next.call) != "" {
      CachedExactly(attempts, Run(p, attempts).outcomes, Run(p, attempts).state.cache, next.call);
    }
  }

  lemma CachedExactly(attempts: seq<Attempt>, outcomes: seq<Outcome>, cache: map<string, ReadResult>, call: ReadCall)
    requires |attempts| == |outcomes| && CacheMatches(attempts, outcomes, cache) && ReadFileDedupeKey(call) != ""
    ensures ReadFileDedupeKey(call) in cache <==> CompletedBefore(attempts, outcomes, call)
  {
    hide ReadFileDedupeKey;
    if CompletedBefore(attempts, outcomes, call) {
      var i :| 0 <= i < |attempts| && CompletedRead(outcomes[i]) &&
               ReadFileDedupeKey(attempts[i].call) == ReadFileDedupeKey(call);
      assert CachedFrom(attempts[i], outcomes[i], cache);
    }
  }
}
