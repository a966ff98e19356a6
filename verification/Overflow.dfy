// Overflow: what key-by-key substitution leaves of a command when a text on the way does not fit the buffer.

module Overflow {
  import opened Template

  // ---------------------------------------------------------------- one key in a text that has been cut

  /** A text that is cut short ends within one of its tokens. */
  lemma {:induction false} CutWithin(us: seq<Token>, x: string) returns (m: nat, f: string)
    requires x < Render(us)
    ensures m < |us| && x == Render(us[..m]) + f && f < Show(us[m])
  {
    hide Show;
    var first := Show(us[0]);
    RenderFirst(us, []);
    if x < first {
      m, f := 0, x;
      RenderNone(us[..0], x);
    } else {
      var rest := x[|first|..];
      assert x == first + rest && rest < Render(us[1..]) by { SplitsBehind(x, first, Render(us[1..]), Render(us)); }
      m, f := CutWithin(us[1..], rest);
      m := m + 1;
      assert us[..m][1..] == us[1..][..m - 1] && us[..m][0] == us[0];
      RenderFirst(us[..m], f);
    }
  }

  lemma ShorterIsPrefix(x: string, y: string, whole: string)
    requires x <= whole && y <= whole
    ensures |x| < |y| ==> x < y
  {
    assert x == whole[..|x|] && y == whole[..|y|];
  }

  lemma SplitsBehind(x: string, first: string, rest: string, whole: string)
    requires x < whole && whole == first + rest && !(x < first)
    ensures |first| <= |x| && x == first + x[|first|..] && x[|first|..] < rest
  {
    ShorterIsPrefix(x, first, whole);
    assert forall i :: 0 <= i < |x| ==> x[i] == whole[i];
    assert forall i :: 0 <= i < |first| ==> first[i] == whole[i];
    assert forall i :: |first| <= i < |x| ==> x[i] == rest[i - |first|];
  }

  lemma CutsBefore(us: seq<Token>, m: nat, f: string)
    requires m < |us| && f < Show(us[m])
    ensures Render(us[..m]) + f < Render(us)
  {
    hide Show;
    assert us == us[..m] + us[m..];
    RenderAdd(us[..m], us[m..]);
    RenderFirst(us[m..], []);
    assert us[m..][0] == us[m];
    hide Render;
    Prolongs(Render(us[..m]), f, Show(us[m]), Render(us[m..][1..]));
    assert Render(us[m..]) == Show(us[m]) + Render(us[m..][1..]) by {
      assert Render(us[m..]) + [] == Render(us[m..]) && Render(us[m..][1..]) + [] == Render(us[m..][1..]);
    }
  }

  lemma Prolongs(a: string, f: string, g: string, rest: string)
    requires f < g
    ensures a + f < a + (g + rest)
  {
    assert g == f + g[|f|..];
    assert a + (g + rest) == (a + f) + (g[|f|..] + rest);
  }

  /** One replacement in a text cut short gives a text cut short: a beginning of the tokens with that hole filled. */
  lemma ReplaceInCut(us: seq<Token>, m: nat, f: string, key: string, value: string, n: nat) returns (z: string)
    requires AllWellFormed(us) && Name(key) && Allowed(value) && m < |us| && f < Show(us[m])
    requires n == FirstHole(us[..m], key)
    ensures n == m ==> z == Render(us[..m]) + f && ReplaceAll(z, key, value) == z
    ensures n < m ==> us[n] == Hole(key) && z < Render(us[n := Text(value)])
                      && ReplaceAll(Render(us[..m]) + f, key, value) == ReplaceAll(z, key, value)
  {
    hide Render, Show, Find, ReplaceAll, ReplaceAt, Placeholder, FirstHole, Name, Allowed, WellFormed;
    var a := us[..m];
    var x := Render(a) + f;
    FindsHoleBefore(a, f, us[m], key, n);
    PlaceholderIsHole(key);
    ReplaceAllOnce(x, key, value);
    z := x;
    if n < m {
      FoundBefore(a, f, n);
      z := ReplaceAt(x, |Render(a[..n])|, |Show(Hole(key))|, value);
      CutAfterReplace(us, m, f, key, value, n);
    }
  }

  lemma FoundBefore(a: seq<Token>, f: string, n: nat)
    requires n <= |a|
    ensures |Render(a[..n])| <= |Render(a) + f|
  {
    RenderPrefix(a, n);
    hide Render;
  }

  lemma CutAfterReplace(us: seq<Token>, m: nat, f: string, key: string, value: string, n: nat)
    requires n < m < |us| && us[n] == Hole(key) && f < Show(us[m])
    ensures var x, i, p := Render(us[..m]) + f, |Render(us[..m][..n])|, Show(Hole(key));
      i + |p| <= |x| && ReplaceAt(x, i, |p|, value) < Render(us[n := Text(value)])
  {
    ShowsValue(value);
    hide Render, Show, ReplaceAt, Cut;
    var a, filled := us[..m], us[n := Text(value)];
    var before, after, p := Render(a[..n]), Render(a[n + 1..]), Show(Hole(key));
    assert a[n := Hole(key)] == a && a[n := Text(value)] == filled[..m];
    RenderAt(a, Hole(key), n);
    RenderAt(a, Text(value), n);
    Regroup(before, p, after, f);
    Regroup(before, value, after, f);
    ReplaceBetween(Render(a) + f, before, p, after + f, value);
    CutsBefore(filled, m, f);
    CutIsPrefix(Render(filled[..m]) + f);
  }

  lemma ShowsValue(value: string)
    ensures Show(Text(value)) == value
  {
  }

  lemma Regroup(a: string, b: string, c: string, d: string)
    ensures a + (b + c) + d == a + (b + (c + d))
  {
  }

  lemma CutIsPrefix(s: string)
    ensures Cut(s, CAPACITY) <= s
  {
  }

  /** `y` is what is left of the filled tokens: `m` of them, and the beginning `f` of the next one, filled or not. */
  ghost predicate Torn(y: string, us: seq<Token>, key: string, value: string, m: nat, t: Token, f: string) {
    m < |us| && y == Render(Fill(us[..m], key, value)) + f && f < Show(t) && (t == us[m] || t == FillOne(us[m], key, value))
  }

  lemma TornAlike(y: string, us: seq<Token>, key: string, value: string, n: nat, m: nat, t: Token, f: string)
    requires n < |us| && us[n] == Hole(key) && Torn(y, us[n := Text(value)], key, value, m, t, f)
    ensures Torn(y, us, key, value, m, t, f)
  {
    hide Render, Show;
    assert Fill(us[n := Text(value)][..m], key, value) == Fill(us[..m], key, value);
  }

  /** Replacing a key in a text cut short. */
  lemma {:induction false} ReplaceAllInCut(us: seq<Token>, x: string, key: string, value: string)
    returns (m: nat, t: Token, f: string)
    requires AllWellFormed(us) && Name(key) && Allowed(value) && x < Render(us)
    ensures Torn(ReplaceAll(x, key, value), us, key, value, m, t, f)
    decreases Holes(us, key)
  {
    hide Render, Show, ReplaceAll, Holes, Name, Allowed, AllWellFormed, Fill, Torn, FirstHole;
    m, f := CutWithin(us, x);
    var n := FirstHole(us[..m], key);
    FirstHoleIs(us[..m], key);
    var z := ReplaceInCut(us, m, f, key, value, n);
    if n == m {
      t := us[m];
      NothingToFill(us, m, key, value);
      TornIs(z, us, key, value, m, t, f);
    } else {
      StillWellFormed(us, key, value, n);
      FewerHoles(us, key, value, n);
      m, t, f := ReplaceAllInCut(us[n := Text(value)], z, key, value);
      TornAlike(ReplaceAll(z, key, value), us, key, value, n, m, t, f);
    }
  }

  lemma FirstHoleIs(a: seq<Token>, key: string)
    ensures FirstHole(a, key) <= |a|
  {
  }

  lemma NothingToFill(us: seq<Token>, m: nat, key: string, value: string)
    requires m <= |us| && FirstHole(us[..m], key) == m
    ensures Fill(us[..m], key, value) == us[..m]
  {
    hide FirstHole;
    FirstHolePost(us[..m], key);
  }

  lemma FirstHolePost(a: seq<Token>, key: string)
    ensures forall i :: 0 <= i < FirstHole(a, key) ==> a[i] != Hole(key)
  {
  }

  lemma TornIs(y: string, us: seq<Token>, key: string, value: string, m: nat, t: Token, f: string)
    requires m < |us| && y == Render(Fill(us[..m], key, value)) + f && f < Show(t) && t == us[m]
    ensures Torn(y, us, key, value, m, t, f)
  {
  }

  /** Replacing a key whose values do not all fit tears the text. */
  lemma {:induction false} ReplaceAllTears(us: seq<Token>, key: string, value: string) returns (m: nat, t: Token, f: string)
    requires AllWellFormed(us) && Name(key) && Allowed(value)
    requires |Render(us)| < CAPACITY <= |Render(Fill(us, key, value))|
    ensures Torn(ReplaceAll(Render(us), key, value), us, key, value, m, t, f)
    decreases Holes(us, key)
  {
    hide Render, Show, ReplaceAll, Holes, Name, Allowed, AllWellFormed, Fill, Torn, FirstHole;
    var n := FirstHole(us, key);
    FirstHoleIs(us, key);
    if n == |us| {
      assert us[..n] == us;
      NothingToFill(us, n, key, value);
      assert false;
    } else {
      HoleThere(us, key);
      var filled := us[n := Text(value)];
      StillWellFormed(us, key, value, n);
      FewerHoles(us, key, value, n);
      FillsTheSame(us, key, value, n);
      if |Render(filled)| < CAPACITY {
        ReplaceStep(us, key, value, n);
        m, t, f := ReplaceAllTears(filled, key, value);
        TornAlike(ReplaceAll(Render(filled), key, value), us, key, value, n, m, t, f);
      } else {
        var z := ReplaceOverflows(us, key, value, n);
        m, t, f := ReplaceAllInCut(filled, z, key, value);
        TornAlike(ReplaceAll(z, key, value), us, key, value, n, m, t, f);
      }
    }
  }

  lemma HoleThere(us: seq<Token>, key: string)
    requires FirstHole(us, key) < |us|
    ensures us[FirstHole(us, key)] == Hole(key)
  {
  }

  lemma ReplaceOverflows(us: seq<Token>, key: string, value: string, n: nat) returns (z: string)
    requires AllWellFormed(us) && Name(key) && Allowed(value) && n == FirstHole(us, key) < |us| && us[n] == Hole(key)
    requires |Render(us[n := Text(value)])| >= CAPACITY
    ensures z < Render(us[n := Text(value)]) && ReplaceAll(Render(us), key, value) == ReplaceAll(z, key, value)
  {
    ShowsValue(value);
    hide Render, Show, Find, ReplaceAll, ReplaceAt, Placeholder, Name, Allowed, AllWellFormed, Cut;
    var before, after, p := Render(us[..n]), Render(us[n + 1..]), Show(Hole(key));
    FindsHole(us, key, n);
    hide FirstHole;
    PlaceholderIsHole(key);
    RenderPrefix(us, n);
    ReplaceAllOnce(Render(us), key, value);
    assert us[n := Hole(key)] == us;
    RenderAt(us, Hole(key), n);
    RenderAt(us, Text(value), n);
    ReplaceBetween(Render(us), before, p, after, value);
    z := Cut(Render(us[n := Text(value)]), CAPACITY);
    CutIsShort(Render(us[n := Text(value)]));
  }

  lemma CutIsShort(s: string)
    requires |s| >= CAPACITY
    ensures Cut(s, CAPACITY) < s
  {
  }

  // ---------------------------------------------------------------- key after key

  /** `x` is what is left of the template with the keys of `done` filled in: `m` tokens of it, and the beginning `f` of the
      next one, as it is in the template or as it is to become. */
  ghost predicate Broken(x: string, ts: seq<Token>, done: map<string, string>, all: map<string, string>,
                         m: nat, t: Token, f: string)
  {
    m < |ts| && x == Render(FillAll(ts[..m], done)) + f && f < Show(t) && (t == ts[m] || t == FillIn(ts[m], all))
  }

  ghost predicate Part(done: map<string, string>, all: map<string, string>) {
    forall key :: key in done ==> key in all && all[key] == done[key]
  }

  /** Tokens with the keys of `done` filled in, but for the last one, which may be early or late. */
  ghost predicate Stage(us: seq<Token>, ts: seq<Token>, done: map<string, string>, all: map<string, string>) {
    && |us| <= |ts|
    && (forall i :: 0 <= i < |us| - 1 ==> us[i] == FillIn(ts[i], done))
    && (|us| > 0 ==> Timely(us[|us| - 1], ts[|us| - 1], all))
  }

  ghost predicate Timely(t: Token, was: Token, all: map<string, string>) { t == was || t == FillIn(was, all) }

  lemma StaysTimely(t: Token, was: Token, done: map<string, string>, all: map<string, string>, key: string, value: string)
    requires Part(done, all) && key in all && all[key] == value
    ensures Timely(FillIn(was, done), was, all)
    ensures Timely(t, was, all) ==> Timely(FillOne(t, key, value), was, all)
  {
  }

  lemma TornIsBroken(y: string, us: seq<Token>, ts: seq<Token>, done: map<string, string>, all: map<string, string>,
                     p: Param, m: nat, t: Token, f: string)
    requires Stage(us, ts, done, all) && Part(done, all) && p.key !in done && p.key in all && all[p.key] == p.value
    requires Torn(y, us, p.key, p.value, m, t, f)
    ensures Broken(y, ts, done[p.key := p.value], all, m, t, f)
  {
    assert us[..m] == FillAll(ts[..m], done);
    FillNext(ts[..m], done, p.key, p.value);
    StaysTimely(us[m], ts[m], done, all, p.key, p.value);
    hide Render, Show, Fill, FillAll, FillOne, FillIn;
  }

  /** A broken text is a text cut short. */
  lemma BrokenIsCut(x: string, ts: seq<Token>, done: map<string, string>, all: map<string, string>,
                    m: nat, t: Token, f: string)
    returns (us: seq<Token>)
    requires Broken(x, ts, done, all, m, t, f)
    ensures Stage(us, ts, done, all) && x < Render(us)
    ensures forall i :: 0 <= i < |us| ==> us[i] == FillIn(ts[i], done) || us[i] == ts[i] || us[i] == FillIn(ts[i], all)
  {
    hide Render, Show, FillIn;
    us := FillAll(ts[..m], done) + [t];
    assert us[..m] == FillAll(ts[..m], done);
    CutsBefore(us, m, f);
  }

  ghost predicate PlainValues(values: map<string, string>) { forall key :: key in values ==> Plain(values[key]) }

  lemma FilledWellFormed(t: Token, values: map<string, string>)
    requires WellFormed(t) && PlainValues(values)
    ensures WellFormed(FillIn(t, values))
  {
  }

  /** One more key: what is broken stays broken. */
  lemma StaysBroken(x: string, ts: seq<Token>, done: map<string, string>, all: map<string, string>,
                    m: nat, t: Token, f: string, p: Param) returns (m2: nat, t2: Token, f2: string)
    requires Broken(x, ts, done, all, m, t, f) && AllWellFormed(ts) && PlainValues(done) && PlainValues(all)
    requires Part(done, all) && p.key !in done && p.key in all && all[p.key] == p.value && Name(p.key) && Allowed(p.value)
    ensures Broken(ReplaceAll(x, p.key, p.value), ts, done[p.key := p.value], all, m2, t2, f2)
  {
    hide Broken, Render, ReplaceAll, Name, Allowed, WellFormed, Torn, FillIn;
    var us := BrokenIsCut(x, ts, done, all, m, t, f);
    forall i | 0 <= i < |us| ensures WellFormed(us[i]) {
      FilledWellFormed(ts[i], done);
      FilledWellFormed(ts[i], all);
    }
    hide AllWellFormed, Stage, Part, PlainValues;
    AllAre(us);
    m2, t2, f2 := ReplaceAllInCut(us, x, p.key, p.value);
    TornIsBroken(ReplaceAll(x, p.key, p.value), us, ts, done, all, p, m2, t2, f2);
  }

  lemma AllAre(us: seq<Token>)
    requires forall i :: 0 <= i < |us| ==> WellFormed(us[i])
    ensures AllWellFormed(us)
  {
  }

  /** One more key: what does not fit any more is broken. */
  lemma Breaks(ts: seq<Token>, done: map<string, string>, all: map<string, string>, p: Param)
    returns (m: nat, t: Token, f: string)
    requires AllWellFormed(ts) && PlainValues(done)
    requires Part(done, all) && p.key !in done && p.key in all && all[p.key] == p.value && Name(p.key) && Allowed(p.value)
    requires |Render(FillAll(ts, done))| < CAPACITY <= |Render(FillAll(ts, done[p.key := p.value]))|
    ensures Broken(ReplaceAll(Render(FillAll(ts, done)), p.key, p.value), ts, done[p.key := p.value], all, m, t, f)
  {
    hide Broken, Render, ReplaceAll, Name, Allowed, Torn, AllWellFormed;
    var us := FillAll(ts, done);
    FillAllWellFormed(ts, done);
    FillNext(ts, done, p.key, p.value);
    StageOfAll(ts, done, all);
    hide FillAll, Fill, Part, PlainValues, Stage;
    m, t, f := ReplaceAllTears(us, p.key, p.value);
    TornIsBroken(ReplaceAll(Render(us), p.key, p.value), us, ts, done, all, p, m, t, f);
  }

  lemma StageOfAll(ts: seq<Token>, done: map<string, string>, all: map<string, string>)
    requires Part(done, all)
    ensures Stage(FillAll(ts, done), ts, done, all)
  {
    if |ts| > 0 { FilledIsTimely(ts[|ts| - 1], done, all); }
    hide FillIn;
  }

  lemma FilledIsTimely(t: Token, done: map<string, string>, all: map<string, string>)
    requires Part(done, all)
    ensures Timely(FillIn(t, done), t, all)
  {
  }

  lemma PartOfTable(params: seq<Param>, n: nat)
    requires DistinctKeys(params) && n <= |params|
    ensures Part(TableOf(params[..n]), TableOf(params))
  {
    hide TableOf;
    forall key | key in TableOf(params[..n])
      ensures key in TableOf(params) && TableOf(params)[key] == TableOf(params[..n])[key]
    {
      TableKeys(params[..n], key);
      var i :| 0 <= i < n && params[..n][i].key == key;
      TableValue(params[..n], i);
      TableValue(params, i);
    }
  }

  /** Once a text on the way does not fit, the command is broken for good. */
  lemma {:induction false} RunBreaks(ts: seq<Token>, params: seq<Param>, n: nat) returns (m: nat, t: Token, f: string)
    requires AllWellFormed(ts) && DistinctKeys(params) && n <= |params| && |Render(ts)| < CAPACITY
    requires forall i :: 0 <= i < |params| ==> Allowed(params[i].value) && Name(params[i].key)
    requires !AlwaysFits(ts, params[..n])
    ensures Broken(ReplaceKeys(Render(ts), params[..n]), ts, TableOf(params[..n]), TableOf(params), m, t, f)
  {
    hide Render, FillAll, ReplaceAll, AllWellFormed, Name, Allowed, AlwaysFits, TableOf, Broken, Part, PlainValues, ReplaceKeys;
    if n == 0 {
      NothingTooLong(ts, params[..n]);
    } else {
      var all, done, p := TableOf(params), TableOf(params[..n - 1]), params[n - 1];
      LastOf(Render(ts), params, n);
      LastKeyIsNew(params[..n], n - 1);
      assert params[..n][..n - 1] == params[..n - 1];
      PartOfTable(params, n - 1);
      TableValue(params, n - 1);
      PlainTable(params);
      PlainTable(params[..n - 1]);
      if AlwaysFits(ts, params[..n - 1]) {
        KeysAreSimultaneous(ts, params[..n - 1]);
        FitsTilLast(ts, params, n);
        m, t, f := Breaks(ts, done, all, p);
      } else {
        m, t, f := RunBreaks(ts, params, n - 1);
        m, t, f := StaysBroken(ReplaceKeys(Render(ts), params[..n - 1]), ts, done, all, m, t, f, p);
      }
    }
  }

  lemma NothingTooLong(ts: seq<Token>, params: seq<Param>)
    requires |params| == 0 && |Render(ts)| < CAPACITY
    ensures AlwaysFits(ts, params)
  {
    FillNothing(ts, params);
    assert params[..0] == params;
    hide Render, FillAll;
  }

  lemma LastOf(text: string, params: seq<Param>, n: nat)
    requires 0 < n <= |params| && forall i :: 0 <= i < |params| ==> Allowed(params[i].value)
    ensures var p := params[n - 1];
      && TableOf(params[..n]) == TableOf(params[..n - 1])[p.key := p.value]
      && ReplaceKeys(text, params[..n]) == ReplaceAll(ReplaceKeys(text, params[..n - 1]), p.key, p.value)
  {
    hide ReplaceAll, Allowed;
    assert params[..n][..n - 1] == params[..n - 1];
  }

  lemma PlainTable(params: seq<Param>)
    requires forall i :: 0 <= i < |params| ==> Allowed(params[i].value)
    ensures PlainValues(TableOf(params))
  {
    TablePlain(params);
    hide TableOf;
  }

  lemma FitsTilLast(ts: seq<Token>, params: seq<Param>, n: nat)
    requires 0 < n <= |params| && AlwaysFits(ts, params[..n - 1]) && !AlwaysFits(ts, params[..n])
    ensures |Render(FillAll(ts, TableOf(params[..n - 1])))| < CAPACITY <= |Render(FillAll(ts, TableOf(params[..n])))|
  {
    hide Render, FillAll, TableOf;
    assert params[..n - 1][..n - 1] == params[..n - 1];
    assert params[..n][..n] == params[..n];
    assert forall k :: 0 <= k < n ==> params[..n][..k] == params[..n - 1][..k];
  }

  // ---------------------------------------------------------------- what is broken is wrong

  /** No ending of the template that shows anything vanishes when all keys are filled in. */
  ghost predicate EndsStay(ts: seq<Token>, values: map<string, string>) {
    forall m :: 0 <= m <= |ts| && Render(FillAll(ts[m..], values)) == "" ==> Render(ts[m..]) == ""
  }

  /** A placeholder cut short is not the text of any tokens, unless nothing of it is left. */
  lemma {:induction false} FragmentIsNoText(us: seq<Token>, name: string)
    requires AllWellFormed(us) && Plain(name)
    ensures Render(us) < Show(Hole(name)) ==> Render(us) == ""
  {
    if |us| > 0 && Render(us) < Show(Hole(name)) {
      var first, rest := Show(us[0]), Render(us[1..]);
      RenderFirst(us, []);
      TokensWellFormed(us);
      assert Render(us) == first + rest;
      if |first| == 0 {
        assert first + rest == rest;
        FragmentIsNoText(us[1..], name);
      } else {
        assert first[0] == Render(us)[0] == '{';
        assert first <= Show(Hole(name)) + "" by { assert Render(us) <= Show(Hole(name)) + ""; }
        if us[0].Hole? { SameName(us[0].name, name, ""); }
      }
    }
  }

  lemma SplitFilled(ts: seq<Token>, values: map<string, string>, m: nat)
    requires m < |ts|
    ensures Render(FillAll(ts, values)) == Render(FillAll(ts[..m], values)) + Render(FillAll(ts[m..], values))
    ensures |Render(FillAll(ts[m..], values))| >= |Show(FillIn(ts[m], values))|
    ensures |Render(ts[m..])| >= |Show(ts[m])|
  {
    hide Show, FillIn;
    var a, b := FillAll(ts[..m], values), FillAll(ts[m..], values);
    assert FillAll(ts, values) == a + b;
    RenderAdd(a, b);
    assert b[0] == FillIn(ts[m], values) && ts[m..][0] == ts[m];
    hide FillAll;
    RenderFirst(b, []);
    RenderFirst(ts[m..], []);
  }

  lemma EndStays(ts: seq<Token>, values: map<string, string>, m: nat)
    requires EndsStay(ts, values) && m <= |ts|
    ensures |Render(FillAll(ts[m..], values))| == 0 ==> |Render(ts[m..])| == 0
  {
    hide Render, FillAll;
  }

  lemma BrokenIsWrong(x: string, ts: seq<Token>, all: map<string, string>, m: nat, t: Token, f: string)
    requires Broken(x, ts, all, all, m, t, f) && AllWellFormed(ts) && PlainValues(all) && EndsStay(ts, all)
    ensures x != Render(FillAll(ts, all))
  {
    hide Render, Show, FillAll;
    SplitFilled(ts, all, m);
    var ending := ts[m..];
    FillAllWellFormed(ending, all);
    var filled := FillAll(ending, all);
    var rest := Render(filled);
    EndStays(ts, all, m);
    if t.Hole? { FragmentIsNoText(filled, t.name); }
    OtherTail(Render(FillAll(ts[..m], all)), f, rest);
  }

  lemma OtherTail(a: string, b: string, c: string)
    requires b != c
    ensures a + b != a + c
  {
    assert b == (a + b)[|a|..] && c == (a + c)[|a|..];
  }

  /** Whatever the template and the values: the command is right if and only if the text always fits the buffer, as long
      as no ending of the template is to vanish. */
  lemma FitsExactly(ts: seq<Token>, params: seq<Param>)
    requires AllWellFormed(ts) && DistinctKeys(params)
    requires forall i :: 0 <= i < |params| ==> Allowed(params[i].value) && Name(params[i].key)
    requires |Render(ts)| < CAPACITY && EndsStay(ts, TableOf(params))
    ensures ReplaceKeys(Render(ts), params) == Render(FillAll(ts, TableOf(params))) <==> AlwaysFits(ts, params)
  {
    hide Render, FillAll, ReplaceKeys, AllWellFormed, Name, Allowed, AlwaysFits, TableOf, Broken, EndsStay, PlainValues;
    if AlwaysFits(ts, params) {
      KeysAreSimultaneous(ts, params);
    } else {
      assert params[..|params|] == params;
      var m, t, f := RunBreaks(ts, params, |params|);
      PlainTable(params);
      BrokenIsWrong(ReplaceKeys(Render(ts), params), ts, TableOf(params), m, t, f);
    }
  }

  /** No ending vanishes when no value is empty. */
  lemma NonEmptyStay(ts: seq<Token>, values: map<string, string>)
    requires forall key :: key in values ==> values[key] != ""
    ensures EndsStay(ts, values)
  {
    hide Render, FillAll;
    forall m | 0 <= m <= |ts| && Render(FillAll(ts[m..], values)) == "" ensures Render(ts[m..]) == "" {
      NothingBecomesNothing(ts[m..], values);
    }
  }

  lemma {:induction false} NothingBecomesNothing(ts: seq<Token>, values: map<string, string>)
    requires (forall key :: key in values ==> values[key] != "") && Render(FillAll(ts, values)) == ""
    ensures Render(ts) == ""
  {
    if |ts| > 0 {
      SplitFilled(ts, values, 0);
      assert FillAll(ts, values)[1..] == FillAll(ts[1..], values);
      NothingBecomesNothing(ts[1..], values);
      assert Show(ts[0]) == "" && Render(ts) == Show(ts[0]) + Render(ts[1..]);
    }
  }

  /** With values that are not empty no ending vanishes, so the text always fits exactly when the command is right. */
  lemma NonEmptyFitsExactly(ts: seq<Token>, params: seq<Param>)
    requires AllWellFormed(ts) && DistinctKeys(params) && |Render(ts)| < CAPACITY
    requires forall i :: 0 <= i < |params| ==> Allowed(params[i].value) && Name(params[i].key) && params[i].value != ""
    ensures ReplaceKeys(Render(ts), params) == Render(FillAll(ts, TableOf(params))) <==> AlwaysFits(ts, params)
  {
    hide Render, FillAll, ReplaceKeys, AllWellFormed, Name, Allowed, AlwaysFits, TableOf, EndsStay;
    forall key | key in TableOf(params) ensures TableOf(params)[key] != "" {
      TableKeys(params, key);
      var i :| 0 <= i < |params| && params[i].key == key;
      TableValue(params, i);
    }
    NonEmptyStay(ts, TableOf(params));
    FitsExactly(ts, params);
  }

  /** Where one order of the keys always fits, another one gives the same command if and only if it always fits too. */
  lemma OrderMatters(ts: seq<Token>, a: seq<Param>, b: seq<Param>)
    requires AllWellFormed(ts) && DistinctKeys(a) && DistinctKeys(b) && multiset(a) == multiset(b)
    requires forall i :: 0 <= i < |a| ==> Allowed(a[i].value) && Name(a[i].key)
    requires forall i :: 0 <= i < |b| ==> Allowed(b[i].value) && Name(b[i].key)
    requires AlwaysFits(ts, a) && EndsStay(ts, TableOf(a))
    ensures ReplaceKeys(Render(ts), a) == ReplaceKeys(Render(ts), b) <==> AlwaysFits(ts, b)
  {
    hide Render, FillAll, ReplaceKeys, AllWellFormed, Name, Allowed, AlwaysFits, TableOf, EndsStay;
    SameTable(a, b);
    FitsAtFirst(ts, a);
    FitsExactly(ts, a);
    FitsExactly(ts, b);
  }

  lemma FitsAtFirst(ts: seq<Token>, params: seq<Param>)
    requires AlwaysFits(ts, params)
    ensures |Render(ts)| < CAPACITY
  {
    FitsBefore(ts, params, 0);
    FillNothing(ts, params[..0]);
    hide Render, FillAll;
  }

  // ---------------------------------------------------------------- two placeholders

  /** A placeholder, some text, another placeholder. */
  function Between(b: string, s: string, a: string): (ts: seq<Token>) { [Hole(b), Text(s), Hole(a)] }

  lemma RenderOne(ts: seq<Token>, t: Token)
    requires |ts| == 1 && ts[0] == t
    ensures Render(ts) == Show(t)
  {
    hide Show;
    var rest := ts[1..];
    assert |Render(rest)| == 0;
  }

  lemma RenderTwo(t: Token, u: Token)
    ensures Render([t, u]) == Show(t) + Show(u)
  {
    hide Show;
    var ts, rest := [t, u], [u];
    assert ts[1..] == rest;
    RenderOne(rest, u);
  }

  lemma RenderThree(t: Token, u: Token, v: Token)
    ensures Render([t, u, v]) == Show(t) + Show(u) + Show(v)
  {
    hide Show;
    var ts, rest := [t, u, v], [u, v];
    assert ts[1..] == rest;
    RenderTwo(u, v);
  }

  lemma ShowBetween(b: string, s: string, a: string, w: string, v: string)
    ensures |Render(Between(b, s, a))| == |b| + 4 + |s| + |a| + 4
    ensures |Render([Text(w), Text(s), Hole(a)])| == |w| + |s| + |a| + 4
    ensures |Render([Hole(b), Text(s), Text(v)])| == |b| + 4 + |s| + |v|
    ensures Render([Text(w), Text(s), Text(v)]) == w + s + v
  {
    hide Render, Show;
    RenderThree(Hole(b), Text(s), Hole(a));
    RenderThree(Text(w), Text(s), Hole(a));
    RenderThree(Hole(b), Text(s), Text(v));
    RenderThree(Text(w), Text(s), Text(v));
    ShowHole(a);
    ShowHole(b);
    ShowsValue(s);
    ShowsValue(w);
    ShowsValue(v);
  }

  lemma BetweenIsWellFormed(b: string, s: string, a: string)
    requires Name(a) && Name(b) && Plain(s)
    ensures AllWellFormed(Between(b, s, a))
  {
  }

  lemma FillBetween(b: string, s: string, a: string, w: string, v: string)
    requires a != b
    ensures FillAll(Between(b, s, a), map[]) == Between(b, s, a)
    ensures FillAll(Between(b, s, a), map[b := w]) == [Text(w), Text(s), Hole(a)]
    ensures FillAll(Between(b, s, a), map[a := v]) == [Hole(b), Text(s), Text(v)]
    ensures FillAll(Between(b, s, a), map[b := w, a := v]) == [Text(w), Text(s), Text(v)]
  {
  }

  lemma TwoParams(p: Param, q: Param)
    requires p.key != q.key
    ensures DistinctKeys([p, q]) && TableOf([p, q]) == map[p.key := p.value, q.key := q.value]
    ensures TableOf([p, q][..0]) == map[] && TableOf([p, q][..1]) == map[p.key := p.value]
    ensures TableOf([p, q][..2]) == map[p.key := p.value, q.key := q.value]
  {
    var both, one := [p, q], [p];
    assert both[..1] == one && both[..2] == both;
    var none := one[..0];
    assert |none| == 0 && both[..0] == none;
    assert TableOf(none) == map[];
    assert TableOf(one) == map[p.key := p.value];
    assert TableOf(both) == TableOf(one)[q.key := q.value];
  }

  lemma TwoFit(ts: seq<Token>, p: Param, q: Param)
    requires p.key != q.key
    ensures AlwaysFits(ts, [p, q]) <==>
              && |Render(FillAll(ts, map[]))| < CAPACITY
              && |Render(FillAll(ts, map[p.key := p.value]))| < CAPACITY
              && |Render(FillAll(ts, map[p.key := p.value, q.key := q.value]))| < CAPACITY
  {
    TwoParams(p, q);
    hide Render, FillAll, TableOf;
  }

  lemma BetweenStays(b: string, s: string, a: string, w: string, v: string)
    requires a != b && v != ""
    ensures EndsStay(Between(b, s, a), map[b := w, a := v])
  {
    hide Render;
    var ts, all := Between(b, s, a), map[b := w, a := v];
    forall m | 0 <= m <= |ts| && Render(FillAll(ts[m..], all)) == "" ensures Render(ts[m..]) == "" {
      if m < |ts| {
        var us := FillAll(ts[m..], all);
        assert us[|us| - 1] == Text(v);
        assert us == us[..|us| - 1] + [Text(v)];
        RenderAdd(us[..|us| - 1], [Text(v)]);
        RenderOne([Text(v)], Text(v));
        assert false;
      }
      RenderNone(ts[m..], "");
    }
  }

  /** The order of two keys matters although template and result fit: as long as the first placeholder is still there, the
      second one's value may not. With the first replaced first the command is right; the other way round it is right
      exactly when the text in between fits as well. */
  lemma OrderMattersExactly(b: string, s: string, a: string, w: string, v: string)
    requires Name(a) && Name(b) && a != b && Plain(s) && Allowed(w) && Allowed(v) && |w| <= |b| + 4
    requires |Render(Between(b, s, a))| < CAPACITY && |w + s + v| < CAPACITY
    ensures ReplaceKeys(Render(Between(b, s, a)), [Param(b, w), Param(a, v)]) == w + s + v
    ensures ReplaceKeys(Render(Between(b, s, a)), [Param(a, v), Param(b, w)]) == w + s + v
            <==> |b| + 4 + |s| + |v| < CAPACITY
  {
    hide Render, FillAll, ReplaceKeys, AllWellFormed, Name, Allowed, Plain, Show, Between, AlwaysFits, TableOf, EndsStay,
      DistinctKeys;
    var ts, p, q := Between(b, s, a), Param(b, w), Param(a, v);
    BetweenIsWellFormed(b, s, a);
    FillBetween(b, s, a, w, v);
    ShowBetween(b, s, a, w, v);
    TwoFit(ts, p, q);
    TwoFit(ts, q, p);
    TwoParams(p, q);
    TwoParams(q, p);
    assert map[a := v, b := w] == map[b := w, a := v];
    KeysAreSimultaneous(ts, [p, q]);
    if v == "" {
      KeysAreSimultaneous(ts, [q, p]);
    } else {
      BetweenStays(b, s, a, w, v);
      FitsExactly(ts, [q, p]);
    }
  }

  /** What no placeholder of `key` is in stays as it is. */
  lemma NothingReplaced(w: string, s: string, f: string, a: string, key: string, value: string)
    requires Plain(w) && Plain(s) && Name(key) && Name(a) && f < Show(Hole(a)) && Allowed(value)
    ensures ReplaceAll(w + s + f, key, value) == w + s + f
  {
    hide Find, Render, Show, ReplaceAll, Placeholder, Name, Allowed, Plain;
    var ts := [Text(w), Text(s)];
    RenderTwo(Text(w), Text(s));
    ShowsValue(w);
    ShowsValue(s);
    PlainTexts(w, s, a);
    FindsHoleBefore(ts, f, Hole(a), key, 2);
    PlaceholderIsHole(key);
    ReplaceAllOnce(w + s + f, key, value);
  }

  lemma PlainTexts(w: string, s: string, a: string)
    requires Plain(w) && Plain(s) && Name(a)
    ensures AllWellFormed([Text(w), Text(s)]) && WellFormed(Hole(a))
  {
  }

  lemma TwoKeys(text: string, p: Param, q: Param)
    requires Allowed(p.value) && Allowed(q.value)
    ensures ReplaceKeys(text, [p, q]) == ReplaceAll(ReplaceAll(text, p.key, p.value), q.key, q.value)
  {
    hide ReplaceAll, Allowed;
    var both, one := [p, q], [p];
    assert both[..1] == one;
    var none := one[..0];
    assert |none| == 0;
    assert ReplaceKeys(text, none) == text;
    assert ReplaceKeys(text, one) == ReplaceAll(text, p.key, p.value);
  }

  /** The first value, too long for the placeholder behind it, in the buffer. */
  lemma FirstOverflows(b: string, s: string, a: string, w: string, f: string)
    requires Name(a) && Name(b) && a != b && Plain(s) && Allowed(w)
    requires |w| + |s| < CAPACITY <= |w| + |s| + |a| + 4 && f == Show(Hole(a))[..CAPACITY - 1 - |w| - |s|]
    ensures ReplaceAll(Render(Between(b, s, a)), b, w) == w + s + f
  {
    hide Find, Render, Show, ReplaceAll, ReplaceAt, Placeholder, Name, Allowed, Plain;
    var text, p, rest := Render(Between(b, s, a)), Show(Hole(b)), s + Show(Hole(a));
    BetweenIsWellFormed(b, s, a);
    RenderThree(Hole(b), Text(s), Hole(a));
    ShowsValue(s);
    FindsHole(Between(b, s, a), b, 0);
    PlaceholderIsHole(a);
    PlaceholderIsHole(b);
    RenderNone(Between(b, s, a)[..0], s);
    ReplaceAllOnce(text, b, w);
    var none := Render(Between(b, s, a)[..0]);
    assert text == none + (p + rest);
    ReplaceBetween(text, none, p, rest, w);
    assert Cut(none + (w + rest), CAPACITY) == w + s + f;
    AllowedIsPlain(w);
    NothingReplaced(w, s, f, a, b, w);
  }

  /** Where an ending is to vanish, a cut may do no harm: then the command is right exactly when the text always fits or the
      cut falls just before the placeholder that is to vanish. */
  lemma VanishesExactly(b: string, s: string, a: string, w: string)
    requires Name(a) && Name(b) && a != b && Plain(s) && Allowed(w)
    requires |Render(Between(b, s, a))| < CAPACITY && |w + s| < CAPACITY
    ensures AlwaysFits(Between(b, s, a), [Param(b, w), Param(a, "")]) <==> |w| + |s| + |a| + 4 < CAPACITY
    ensures ReplaceKeys(Render(Between(b, s, a)), [Param(b, w), Param(a, "")]) == w + s
            <==> |w| + |s| + |a| + 4 < CAPACITY || |w| + |s| == CAPACITY - 1
  {
    hide Render, FillAll, ReplaceKeys, ReplaceAll, AllWellFormed, Name, Allowed, Plain, Show, Between, AlwaysFits, TableOf,
      DistinctKeys;
    var ts, p, q := Between(b, s, a), Param(b, w), Param(a, "");
    BetweenIsWellFormed(b, s, a);
    FillBetween(b, s, a, w, "");
    ShowBetween(b, s, a, w, "");
    TwoFit(ts, p, q);
    TwoParams(p, q);
    NothingIsAllowed("");
    assert w + s + "" == w + s;
    if |w| + |s| + |a| + 4 < CAPACITY {
      KeysAreSimultaneous(ts, [p, q]);
    } else {
      ShowHole(a);
      var f := Show(Hole(a))[..CAPACITY - 1 - |w| - |s|];
      FirstOverflows(b, s, a, w, f);
      TwoKeys(Render(ts), p, q);
      AllowedIsPlain(w);
      NothingReplaced(w, s, f, a, a, "");
      assert w + s + f == w + s <==> |f| == 0;
    }
  }

  lemma NothingIsAllowed(value: string)
    requires |value| == 0
    ensures Allowed(value)
  {
  }
}
