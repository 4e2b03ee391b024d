/** The key under which the loop detector remembers a round of tool calls: the normalised calls
    in a canonical order, so that reordering them makes no difference (pkg/agent/policy.go). */
module ToolCallKey {
  import opened GoStrings
  import opened ToolCalls
  import opened Wrappers

  /** What the key keeps of a call: its trimmed name and its arguments' canonical text. */
  datatype Part = Part(name: string, args: string)

  /** Go's `<` on strings, by code points. */
  predicate Less(a: string, b: string) {
    if b == "" then false
    else if a == "" then true
    else a[0] < b[0] || (a[0] == b[0] && Less(a[1..], b[1..]))
  }

  predicate PartLess(a: Part, b: Part) {
    if a.name != b.name then Less(a.name, b.name) else Less(a.args, b.args)
  }

  /** In order: nothing later is smaller. */
  predicate InOrder(parts: seq<Part>) {
    forall i, j | 0 <= i < j < |parts| :: !PartLess(parts[j], parts[i])
  }

  lemma {:induction false} LessIsTotal(a: string, b: string)
    ensures Less(a, b) || a == b || Less(b, a)
  {
    if a != "" && b != "" && a[0] == b[0] {
      LessIsTotal(a[1..], b[1..]);
      if a[1..] == b[1..] {
        assert a == [a[0]] + a[1..] && b == [b[0]] + b[1..];
      }
    }
  }

  lemma {:induction false} LessIsTransitive(a: string, b: string, c: string)
    requires Less(a, b) && Less(b, c)
    ensures Less(a, c)
  {
    if a != "" && a[0] == b[0] && b[0] == c[0] {
      LessIsTransitive(a[1..], b[1..], c[1..]);
    }
  }

  lemma {:induction false} LessIsIrreflexive(a: string)
    ensures !Less(a, a)
  {
    if a != "" {
      LessIsIrreflexive(a[1..]);
    }
  }

  lemma PartLessIsTotal(a: Part, b: Part)
    ensures PartLess(a, b) || a == b || PartLess(b, a)
    ensures !(PartLess(a, b) && PartLess(b, a))
  {
    hide Less;
    LessIsTotal(a.name, b.name);
    LessIsTotal(a.args, b.args);
    if PartLess(a, b) && PartLess(b, a) {
      if a.name != b.name {
        LessIsTransitive(a.name, b.name, a.name);
        LessIsIrreflexive(a.name);
      } else {
        LessIsTransitive(a.args, b.args, a.args);
        LessIsIrreflexive(a.args);
      }
      assert false;
    }
  }

  lemma PartLessIsTransitive(a: Part, b: Part, c: Part)
    requires !PartLess(b, a) && !PartLess(c, b)
    ensures !PartLess(c, a)
  {
    hide Less;
    LessIsTotal(a.name, b.name);
    LessIsTotal(a.args, b.args);
    LessIsTotal(b.name, c.name);
    LessIsTotal(b.args, c.args);
    LessIsIrreflexive(a.name);
    LessIsIrreflexive(a.args);
    PartLessIsTotal(a, c);
    if PartLess(a, b) && PartLess(b, c) {
      if a.name != b.name && b.name != c.name {
        LessIsTransitive(a.name, b.name, c.name);
      }
      if a.args != b.args && b.args != c.args && Less(a.args, b.args) && Less(b.args, c.args) {
        LessIsTransitive(a.args, b.args, c.args);
      }
    }
  }

  /** The library sort the key relies on. */
  method SortParts(parts: seq<Part>) returns (sorted: seq<Part>)
    ensures InOrder(sorted) && multiset(sorted) == multiset(parts)
  {
    hide PartLess;
    sorted := [];
    for n := 0 to |parts|
      invariant InOrder(sorted) && multiset(sorted) == multiset(parts[..n])
    {
      var part := parts[n];
      assert parts[..n + 1] == parts[..n] + [part];
      var i := 0;
      while i < |sorted| && !PartLess(part, sorted[i])
        invariant i <= |sorted|
        invariant forall j | 0 <= j < i :: !PartLess(part, sorted[j])
      {
        i := i + 1;
      }
      InsertedInOrder(sorted, part, i);
      assert sorted == sorted[..i] + sorted[i..];
      sorted := sorted[..i] + [part] + sorted[i..];
    }
    assert parts[..|parts|] == parts;
  }

  lemma InsertedInOrder(sorted: seq<Part>, part: Part, i: nat)
    requires InOrder(sorted) && i <= |sorted|
    requires forall j | 0 <= j < i :: !PartLess(part, sorted[j])
    requires i < |sorted| ==> PartLess(part, sorted[i])
    ensures InOrder(sorted[..i] + [part] + sorted[i..])
  {
    hide PartLess;
    forall j | i <= j < |sorted| ensures !PartLess(sorted[j], part) {
      PartLessIsTotal(part, sorted[i]);
      if j > i {
        PartLessIsTransitive(part, sorted[i], sorted[j]);
      }
    }
  }

  /** There is one ordered arrangement of a collection of parts. */
  lemma {:induction false} OneArrangement(a: seq<Part>, b: seq<Part>)
    requires InOrder(a) && InOrder(b) && multiset(a) == multiset(b)
    ensures a == b
    decreases |a|
  {
    hide PartLess, InOrder;
    assert |a| == |multiset(a)| == |multiset(b)| == |b|;
    if a != [] {
      FirstIsLeast(a, b);
      FirstIsLeast(b, a);
      PartLessIsTotal(a[0], b[0]);
      WithoutFirst(a);
      WithoutFirst(b);
      OneArrangement(a[1..], b[1..]);
      assert a == [a[0]] + a[1..] && b == [b[0]] + b[1..];
    }
  }

  lemma WithoutFirst(a: seq<Part>)
    requires a != [] && InOrder(a)
    ensures InOrder(a[1..]) && multiset(a[1..]) == multiset(a) - multiset{a[0]}
  {
    hide PartLess;
    assert a == [a[0]] + a[1..];
  }

  lemma FirstIsLeast(a: seq<Part>, b: seq<Part>)
    requires InOrder(a) && a != [] && b != [] && multiset(a) == multiset(b)
    ensures !PartLess(b[0], a[0])
  {
    hide PartLess;
    assert b[0] in multiset(b);
    var i :| 0 <= i < |a| && a[i] == b[0];
    PartLessIsTotal(a[0], a[0]);
  }

  /** The parts of the calls normalisation keeps, in order. */
  function Parts(calls: seq<ToolCall>): seq<Part> {
    if calls == [] then []
    else
      Parts(calls[..|calls| - 1]) +
      match NormalizeToolCall(calls[|calls| - 1], 0)
      case None => []
      case Some(c) => [Part(c.name, c.arguments)]
  }

  /** How many usable calls of the round have this name, trimmed, and these arguments. */
  function CallsLike(calls: seq<ToolCall>, name: string, arguments: string): nat {
    if calls == [] then 0
    else
      var last := calls[|calls| - 1];
      CallsLike(calls[..|calls| - 1], name, arguments) +
      if Usable(last) && TrimSpace(last.name) == name && last.arguments == arguments then 1 else 0
  }

  lemma {:induction false} PartsCount(calls: seq<ToolCall>, name: string, arguments: string)
    ensures multiset(Parts(calls))[Part(name, arguments)] == CallsLike(calls, name, arguments)
    decreases |calls|
  {
    hide NormalizeToolCall, Usable, TrimSpace, NormalCall;
    if calls != [] {
      var last := calls[|calls| - 1];
      PartsCount(calls[..|calls| - 1], name, arguments);
      NormalizeCallFacts(last, 0);
      if Usable(last) {
        NormalizeCallKeeps(last, 0);
      }
    }
  }

  lemma {:induction false} PartsOfUnusable(calls: seq<ToolCall>)
    ensures Parts(calls) == [] <==> forall c | c in calls :: !Usable(c)
    decreases |calls|
  {
    hide NormalizeToolCall, Usable, TrimSpace, NormalCall;
    if calls != [] {
      var last := |calls| - 1;
      PartsOfUnusable(calls[..last]);
      NormalizeCallFacts(calls[last], 0);
      assert calls == calls[..last] + [calls[last]];
    }
  }

  /** The key of a round: its usable calls' trimmed names and arguments, each as often as it
      occurs, in order. */
  ghost predicate IsKeyOf(key: seq<Part>, calls: seq<ToolCall>) {
    InOrder(key) && forall name, arguments ::
      multiset(key)[Part(name, arguments)] == CallsLike(calls, name, arguments)
  }

  lemma PartsMakeTheKey(key: seq<Part>, calls: seq<ToolCall>)
    requires InOrder(key) && multiset(key) == multiset(Parts(calls))
    ensures IsKeyOf(key, calls)
  {
    hide Parts, CallsLike, InOrder;
    forall name, arguments ensures multiset(key)[Part(name, arguments)] == CallsLike(calls, name, arguments) {
      PartsCount(calls, name, arguments);
    }
  }

  /** `hashToolCalls`, with the ordered parts standing for their hash; no key when no call is
      kept. */
  method HashToolCalls(calls: seq<ToolCall>) returns (key: Option<seq<Part>>)
    ensures key == None <==> Parts(calls) == []
    ensures key == None <==> forall c | c in calls :: !Usable(c)
    ensures key.Some? ==> InOrder(key.value) && multiset(key.value) == multiset(Parts(calls))
    ensures key.Some? ==> IsKeyOf(key.value, calls)
  {
    hide NormalizeToolCall, InOrder, IsKeyOf, Usable;
    PartsOfUnusable(calls);
    if |calls| == 0 {
      return None;
    }
    var normalized: seq<Part> := [];
    for i := 0 to |calls|
      invariant normalized == Parts(calls[..i])
    {
      assert calls[..i + 1][..i] == calls[..i];
      var call := NormalizeToolCall(calls[i], 0);
      if call.Some? {
        normalized := normalized + [Part(call.value.name, call.value.arguments)];
      }
    }
    assert calls[..|calls|] == calls;
    if |normalized| == 0 {
      return None;
    }
    var sorted := SortParts(normalized);
    PartsMakeTheKey(sorted, calls);
    return Some(sorted);
  }

  /** Two rounds of calls have the same key exactly when they keep the same calls, counted with
      repetitions, in whatever order. */
  lemma KeyForgetsOnlyOrder(a: seq<ToolCall>, b: seq<ToolCall>, key: seq<Part>, other: seq<Part>)
    requires InOrder(key) && multiset(key) == multiset(Parts(a))
    requires InOrder(other) && multiset(other) == multiset(Parts(b))
    ensures key == other <==> multiset(Parts(a)) == multiset(Parts(b))
  {
    hide Parts, InOrder;
    if multiset(Parts(a)) == multiset(Parts(b)) {
      OneArrangement(key, other);
    }
  }

  lemma SameCounts(key: seq<Part>, other: seq<Part>)
    requires forall name, arguments ::
      multiset(key)[Part(name, arguments)] == multiset(other)[Part(name, arguments)]
    ensures multiset(key) == multiset(other)
  {
    forall p: Part ensures multiset(key)[p] == multiset(other)[p] {
      assert multiset(key)[Part(p.name, p.args)] == multiset(other)[Part(p.name, p.args)];
    }
  }

  /** For every name and arguments the rounds hold equally many usable calls with that trimmed
      name and those arguments. */
  ghost predicate SameCalls(a: seq<ToolCall>, b: seq<ToolCall>) {
    forall name, arguments :: CallsLike(a, name, arguments) == CallsLike(b, name, arguments)
  }

  /** Two rounds share a key exactly when they hold the same calls, each equally often. */
  lemma KeysAgreeExactly(a: seq<ToolCall>, b: seq<ToolCall>, key: seq<Part>, other: seq<Part>)
    requires IsKeyOf(key, a) && IsKeyOf(other, b)
    ensures key == other <==> SameCalls(a, b)
  {
    hide CallsLike, InOrder;
    if key == other {
      forall name, arguments ensures CallsLike(a, name, arguments) == CallsLike(b, name, arguments) {
        assert multiset(key)[Part(name, arguments)] == multiset(other)[Part(name, arguments)];
      }
    } else if SameCalls(a, b) {
      SameCounts(key, other);
      OneArrangement(key, other);
    }
  }

  /** In particular rounds of one usable call share a key exactly when the trimmed names and the
      arguments agree. */
  lemma SingleCallsShareTheKey(a: ToolCall, b: ToolCall, key: seq<Part>, other: seq<Part>)
    requires Usable(a) && Usable(b) && IsKeyOf(key, [a]) && IsKeyOf(other, [b])
    ensures key == other <==> TrimSpace(a.name) == TrimSpace(b.name) && a.arguments == b.arguments
  {
    hide Usable, TrimSpace, IsKeyOf;
    KeysAgreeExactly([a], [b], key, other);
    assert [a][..0] == [] && [b][..0] == [];
    assert CallsLike([a], TrimSpace(a.name), a.arguments) == 1;
    if TrimSpace(a.name) == TrimSpace(b.name) && a.arguments == b.arguments {
      forall name, arguments ensures CallsLike([a], name, arguments) == CallsLike([b], name, arguments) {
      }
    }
  }

  lemma {:induction false} PartsOfConcat(a: seq<ToolCall>, b: seq<ToolCall>)
    ensures Parts(a + b) == Parts(a) + Parts(b)
    decreases |b|
  {
    hide NormalizeToolCall;
    if b == [] {
      assert a + b == a;
    } else {
      assert (a + b)[..|a + b| - 1] == a + b[..|b| - 1];
      PartsOfConcat(a, b[..|b| - 1]);
    }
  }

  /** Exchanging calls anywhere in a round keeps its parts. */
  lemma {:induction false} PartsOfReordered(a: seq<ToolCall>, b: seq<ToolCall>)
    requires multiset(a) == multiset(b)
    ensures multiset(Parts(a)) == multiset(Parts(b))
    decreases |a|
  {
    hide NormalizeToolCall, Parts;
    assert |a| == |multiset(a)| == |multiset(b)| == |b|;
    if a == [] {
      assert b == [];
    } else {
      var last := |a| - 1;
      assert a[last] in multiset(b);
      var i :| 0 <= i < |b| && b[i] == a[last];
      var rest := b[..i] + b[i + 1..];
      assert a == a[..last] + [a[last]];
      assert b == b[..i] + ([b[i]] + b[i + 1..]);
      assert multiset(rest) == multiset(b) - multiset{a[last]};
      PartsOfReordered(a[..last], rest);
      PartsOfConcat(a[..last], [a[last]]);
      PartsOfConcat(b[..i], [b[i]] + b[i + 1..]);
      PartsOfConcat([b[i]], b[i + 1..]);
      PartsOfConcat(b[..i], b[i + 1..]);
    }
  }

  /** A round of calls has the same key in whatever order the calls come. */
  lemma ReorderedCallsShareTheKey(a: seq<ToolCall>, b: seq<ToolCall>, key: seq<Part>, other: seq<Part>)
    requires multiset(a) == multiset(b)
    requires InOrder(key) && multiset(key) == multiset(Parts(a))
    requires InOrder(other) && multiset(other) == multiset(Parts(b))
    ensures key == other
  {
    hide Parts, InOrder;
    PartsOfReordered(a, b);
    KeyForgetsOnlyOrder(a, b, key, other);
  }
}
