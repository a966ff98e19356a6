// Template: the command of an application, its placeholders replaced one key at a time in a fixed buffer.

module Template {
  import opened Wrappers

  const CAPACITY := 512                 // JOB_CMD_LEN
  const PLACEHOLDER_CAPACITY := 140
  const FORBIDDEN := ";|&`$(){}\\<>!\n\r"

  /** What of a text a buffer of `capacity` characters holds, the last one being the NUL. */
  function Cut(s: string, capacity: nat): (r: string)
    requires capacity > 0
    ensures |r| < capacity && r <= s && (|s| < capacity ==> r == s)
  {
    if |s| < capacity then s else s[..capacity - 1]
  }

  function Placeholder(key: string): string { Cut("{{" + key + "}}", PLACEHOLDER_CAPACITY) }

  predicate OccursAt(s: string, p: string, i: nat) { i <= |s| && p <= s[i..] }

  /** strstr: where `p` first occurs, or the length of `s` and one more when it does not. */
  function Find(s: string, p: string): (i: nat)
    ensures i <= |s| + 1
    ensures i <= |s| ==> OccursAt(s, p, i)
    ensures forall k :: 0 <= k < i && k <= |s| ==> !OccursAt(s, p, k)
  {
    if p <= s then 0
    else if |s| == 0 then 1
    else
      var m := Find(s[1..], p);
      assert s[0..] == s;
      assert forall k :: 0 < k <= |s| ==> s[1..][k - 1..] == s[k..];
      assert forall k :: 0 < k <= |s| ==> (OccursAt(s[1..], p, k - 1) <==> OccursAt(s, p, k));
      m + 1
  }

  predicate Allowed(value: string) { forall i :: 0 <= i < |value| ==> value[i] !in FORBIDDEN }

  lemma AllowedMeans(params: seq<Param>)
    ensures (forall i :: 0 <= i < |params| ==> Allowed(params[i].value)) <==>
      forall i, k :: 0 <= i < |params| && 0 <= k < |params[i].value| ==>
        params[i].value[k] !in {';', '|', '&', '`', '$', '(', ')', '{', '}', '\\', '<', '>', '!', '\n', '\r'}
  {
    forall c: char ensures c in FORBIDDEN <==>
        c in {';', '|', '&', '`', '$', '(', ')', '{', '}', '\\', '<', '>', '!', '\n', '\r'}
    {
      ForbiddenMeans(c);
    }
    hide FORBIDDEN;
  }

  lemma ForbiddenMeans(c: char)
    ensures c in FORBIDDEN <==> c in {';', '|', '&', '`', '$', '(', ')', '{', '}', '\\', '<', '>', '!', '\n', '\r'}
  {
    var f := FORBIDDEN;
    assert f[0] == ';' && f[1] == '|' && f[2] == '&' && f[3] == '`' && f[4] == '$' && f[5] == '(' && f[6] == ')' && f[7] == '{';
    assert f[8] == '}' && f[9] == '\\' && f[10] == '<' && f[11] == '>' && f[12] == '!' && f[13] == '\n' && f[14] == '\r';
  }

  function Braces(s: string): nat { if |s| == 0 then 0 else (if s[0] == '{' then 1 else 0) + Braces(s[1..]) }

  lemma {:induction false} BracesAdd(a: string, b: string)
    ensures Braces(a + b) == Braces(a) + Braces(b)
  {
    if |a| == 0 { assert a + b == b; } else { assert (a + b)[1..] == a[1..] + b; BracesAdd(a[1..], b); }
  }

  lemma {:induction false} BraceFree(s: string)
    requires '{' !in s
    ensures Braces(s) == 0
  {
    if |s| > 0 { BraceFree(s[1..]); }
  }

  /** One replacement: what stands before, the value, and what stands behind, each as far as the buffer allows. */
  function ReplaceAt(s: string, i: nat, n: nat, value: string): string
    requires i + n <= |s|
  {
    Cut(Cut(s[..i] + value, CAPACITY) + s[i + n..], CAPACITY)
  }

  lemma CutBraces(s: string, capacity: nat)
    requires capacity > 0
    ensures Braces(Cut(s, capacity)) <= Braces(s)
  {
    var r := Cut(s, capacity);
    assert s == r + s[|r|..];
    BracesAdd(r, s[|r|..]);
  }

  lemma FoundAt(s: string, p: string)
    requires Find(s, p) <= |s|
    ensures Find(s, p) + |p| <= |s| && s == s[..Find(s, p)] + p + s[Find(s, p) + |p|..]
  {
    hide Find;
    var i := Find(s, p);
    assert OccursAt(s, p, i);
    assert s == s[..i] + s[i..];
    assert s[i..] == p + s[i..][|p|..];
  }

  lemma PlaceholderHasBraces(key: string)
    ensures Braces(Placeholder(key)) >= 1
  {
    assert Placeholder(key)[0] == '{';
  }

  lemma AllowedHasNone(value: string)
    requires Allowed(value)
    ensures Braces(value) == 0
  {
    assert '{' in FORBIDDEN;
    BraceFree(value);
  }

  lemma ReplaceAtBraces(before: string, p: string, after: string, value: string)
    ensures Braces(ReplaceAt(before + p + after, |before|, |p|, value)) <= Braces(before) + Braces(value) + Braces(after)
    ensures Braces(before + p + after) == Braces(before) + Braces(p) + Braces(after)
  {
    hide Braces, Cut;
    var s := before + p + after;
    assert s[..|before|] == before && s[|before| + |p|..] == after;
    BracesAdd(before + p, after);
    BracesAdd(before, p);
    var first := Cut(before + value, CAPACITY);
    BracesAdd(before, value);
    CutBraces(before + value, CAPACITY);
    BracesAdd(first, after);
    CutBraces(first + after, CAPACITY);
  }

  /** Every replacement leaves fewer opening braces, so the loop ends whatever the key, the value and the template. */
  lemma ReplacementLowersBraces(s: string, key: string, value: string)
    requires Allowed(value) && Find(s, Placeholder(key)) <= |s|
    ensures Find(s, Placeholder(key)) + |Placeholder(key)| <= |s|
    ensures Braces(ReplaceAt(s, Find(s, Placeholder(key)), |Placeholder(key)|, value)) < Braces(s)
  {
    hide Braces, Placeholder, Allowed, ReplaceAt, Find;
    var p := Placeholder(key);
    var i := Find(s, p);
    FoundAt(s, p);
    PlaceholderHasBraces(key);
    AllowedHasNone(value);
    ReplaceAtBraces(s[..i], p, s[i + |p|..], value);
  }

  /** All occurrences of one key replaced, first to last. */
  function ReplaceAll(s: string, key: string, value: string): string
    requires Allowed(value)
    decreases Braces(s)
  {
    var i := Find(s, Placeholder(key));
    if i > |s| then s
    else
      ReplacementLowersBraces(s, key, value);
      ReplaceAll(ReplaceAt(s, i, |Placeholder(key)|, value), key, value)
  }

  datatype Param = Param(key: string, value: string)

  function ReplaceKeys(s: string, params: seq<Param>): string
    requires forall i :: 0 <= i < |params| ==> Allowed(params[i].value)
  {
    if |params| == 0 then s
    else ReplaceAll(ReplaceKeys(s, params[..|params| - 1]), params[|params| - 1].key, params[|params| - 1].value)
  }

  /** The inner loop, for one key: the first placeholder is replaced until there is none. */
  method ReplaceKey(text: string, key: string, value: string) returns (resolved: string)
    requires Allowed(value)
    ensures resolved == ReplaceAll(text, key, value)
  {
    hide Allowed;
    resolved := text;
    var placeholder := Placeholder(key);
    var pos := Find(resolved, placeholder);
    while pos <= |resolved|
      invariant pos == Find(resolved, placeholder)
      invariant ReplaceAll(resolved, key, value) == ReplaceAll(text, key, value)
      decreases Braces(resolved)
    {
      ReplacementLowersBraces(resolved, key, value);
      resolved := ReplaceAt(resolved, pos, |placeholder|, value);
      pos := Find(resolved, placeholder);
    }
  }

  /** The check of one value, character by character. */
  method IsAllowed(value: string) returns (ok: bool)
    ensures ok == Allowed(value)
  {
    for v := 0 to |value|
      invariant forall i :: 0 <= i < v ==> value[i] !in FORBIDDEN
    {
      if value[v] in FORBIDDEN { return false; }
    }
    ok := true;
  }

  /** The substitution of user parameters in resolve_app_command_legacy: nothing when a value holds a forbidden
      character, otherwise the template with key after key replaced. */
  method Resolve(template: string, params: seq<Param>) returns (r: Option<string>)
    ensures r.Some? <==> forall i :: 0 <= i < |params| ==> Allowed(params[i].value)
    ensures r.Some? ==> r.value == ReplaceKeys(Cut(template, CAPACITY), params)
    ensures r.Some? <==> forall i, k :: 0 <= i < |params| && 0 <= k < |params[i].value| ==>
              params[i].value[k] !in {';', '|', '&', '`', '$', '(', ')', '{', '}', '\\', '<', '>', '!', '\n', '\r'}
  {
    hide ReplaceAll, Allowed, FORBIDDEN;
    AllowedMeans(params);
    var resolved := Cut(template, CAPACITY);
    ghost var start := resolved;
    for k := 0 to |params|
      invariant forall i :: 0 <= i < k ==> Allowed(params[i].value)
      invariant resolved == ReplaceKeys(start, params[..k])
    {
      var value := params[k].value;
      var ok := IsAllowed(value);
      if !ok { return None; }
      resolved := ReplaceKey(resolved, params[k].key, value);
      assert params[..k + 1][..k] == params[..k];
    }
    assert params[..|params|] == params;
    r := Some(resolved);
  }

  // ---------------------------------------------------------------- one key at a time is all at once

  datatype Token = Text(s: string) | Hole(name: string)

  predicate Plain(s: string) { '{' !in s && '}' !in s }

  /** A name that fits its placeholder whole. */
  predicate Name(s: string) { Plain(s) && |s| + 4 < PLACEHOLDER_CAPACITY }

  predicate WellFormed(t: Token) {
    match t
    case Text(s) => Plain(s)
    case Hole(name) => Name(name)
  }

  function Show(t: Token): string {
    match t
    case Text(s) => s
    case Hole(name) => "{{" + name + "}}"
  }

  function Render(ts: seq<Token>): string { if |ts| == 0 then "" else Show(ts[0]) + Render(ts[1..]) }

  function FillOne(t: Token, key: string, value: string): Token { if t == Hole(key) then Text(value) else t }

  function Fill(ts: seq<Token>, key: string, value: string): (r: seq<Token>)
    ensures |r| == |ts|
  {
    seq(|ts|, i requires 0 <= i < |ts| => FillOne(ts[i], key, value))
  }

  predicate AllWellFormed(ts: seq<Token>) { forall i :: 0 <= i < |ts| ==> WellFormed(ts[i]) }

  lemma {:induction false} RenderAdd(a: seq<Token>, b: seq<Token>)
    ensures Render(a + b) == Render(a) + Render(b)
  {
    if |a| == 0 {
      assert a + b == b;
    } else {
      assert (a + b)[1..] == a[1..] + b;
      RenderAdd(a[1..], b);
    }
  }

  /** Two placeholders that start at the same place are the same. */
  lemma SameName(key: string, name: string, rest: string)
    requires Plain(key) && Plain(name) && "{{" + key + "}}" <= "{{" + name + "}}" + rest
    ensures key == name
  {
    var p, s := "{{" + key + "}}", "{{" + name + "}}" + rest;
    assert forall i :: 0 <= i < |key| ==> p[2 + i] == key[i];
    assert forall i :: 0 <= i < |name| ==> s[2 + i] == name[i];
    assert p[2 + |key|] == '}' && s[2 + |name|] == '}';
    assert forall i :: 0 <= i < |p| ==> p[i] == s[i];
    assert key == name;
  }

  lemma FirstTwo(s: string, p: string, k: nat)
    requires |p| >= 2
    ensures OccursAt(s, p, k) ==> k + 1 < |s| && s[k] == p[0] && s[k + 1] == p[1]
  {
    if OccursAt(s, p, k) { assert s[k..][0] == p[0] && s[k..][1] == p[1]; }
  }

  /** A placeholder does not occur within a token, unless the token is it. */
  lemma NotInside(t: Token, key: string, rest: string, k: nat)
    requires WellFormed(t) && Name(key) && t != Hole(key) && k < |Show(t)|
    ensures !OccursAt(Show(t) + rest, "{{" + key + "}}", k)
  {
    var s := Show(t) + rest;
    var p := "{{" + key + "}}";
    FirstTwo(s, p, k);
    assert s[0..] == s;
    if t.Text? {
      assert s[k] == t.s[k];
    } else {
      var name := t.name;
      if k == 0 {
        if p <= s { SameName(key, name, rest); }
      } else if k == 1 {
        assert s[2] == if |name| > 0 then name[0] else '}';
      } else {
        assert s[k] == if k < 2 + |name| then name[k - 2] else '}';
      }
    }
  }

  lemma {:induction false} FindFrom(s: string, p: string, n: nat)
    requires n <= |s| && forall k :: 0 <= k < n ==> !OccursAt(s, p, k)
    ensures Find(s, p) == n + Find(s[n..], p)
    decreases n
  {
    if n == 0 {
      assert s[0..] == s;
    } else {
      assert s[0..] == s && !OccursAt(s, p, 0);
      forall k | 0 <= k < n - 1 ensures !OccursAt(s[1..], p, k) {
        assert s[1..][k..] == s[k + 1..];
        assert !OccursAt(s, p, k + 1);
      }
      FindFrom(s[1..], p, n - 1);
      assert s[1..][n - 1..] == s[n..];
    }
  }

  /** Nor does it occur in a token that is cut short. */
  lemma NotInFragment(f: string, t: Token, key: string, k: nat)
    requires WellFormed(t) && Name(key) && f < Show(t) && k <= |f|
    ensures !OccursAt(f, "{{" + key + "}}", k)
  {
    var p, s := "{{" + key + "}}", Show(t);
    assert f == s[..|f|];
    if OccursAt(f, p, k) {
      FirstTwo(f, p, k);
      assert p <= s[k..] by { assert f[k..] == s[k..][..|f| - k]; }
      assert s + "" == s;
      if t != Hole(key) { NotInside(t, key, "", k); }
    }
  }

  lemma NotFoundInFragment(f: string, t: Token, key: string)
    requires WellFormed(t) && Name(key) && f < Show(t)
    ensures Find(f, Show(Hole(key))) == |f| + 1
  {
    hide OccursAt, Name, WellFormed;
    forall k | 0 <= k <= |f| ensures !OccursAt(f, Show(Hole(key)), k) { NotInFragment(f, t, key, k); }
  }

  lemma FoundFirst(s: string, p: string)
    requires p <= s
    ensures Find(s, p) == 0
  {
  }

  lemma SkipToken(t: Token, key: string, rest: string)
    requires WellFormed(t) && Name(key) && t != Hole(key)
    ensures Find(Show(t) + rest, Show(Hole(key))) == |Show(t)| + Find(rest, Show(Hole(key)))
  {
    hide Find, OccursAt, Name, WellFormed;
    var p, text := Show(Hole(key)), Show(t) + rest;
    forall k | 0 <= k < |Show(t)| ensures !OccursAt(text, p, k) { NotInside(t, key, rest, k); }
    FindFrom(text, p, |Show(t)|);
    assert text[|Show(t)|..] == rest;
  }

  lemma RenderFirst(ts: seq<Token>, f: string)
    requires |ts| > 0
    ensures Render(ts) + f == Show(ts[0]) + (Render(ts[1..]) + f) && |Render(ts)| == |Show(ts[0])| + |Render(ts[1..])|
  {
    hide Show;
    assert Render(ts) == Show(ts[0]) + Render(ts[1..]);
    hide Render;
    Associates(Show(ts[0]), Render(ts[1..]), f);
  }

  lemma Associates(a: string, b: string, c: string)
    ensures a + b + c == a + (b + c)
  {
  }

  lemma RenderNone(ts: seq<Token>, f: string)
    requires |ts| == 0
    ensures Render(ts) + f == f && |Render(ts)| == 0
  {
  }

  lemma TokensWellFormed(ts: seq<Token>)
    requires AllWellFormed(ts) && |ts| > 0
    ensures WellFormed(ts[0]) && AllWellFormed(ts[1..])
  {
  }

  /** The placeholder is found at the first token that is it, if what follows the tokens is a token cut short. */
  lemma {:induction false} FindsHoleBefore(ts: seq<Token>, f: string, t: Token, key: string, n: nat)
    requires AllWellFormed(ts) && Name(key) && n <= |ts| && (forall i :: 0 <= i < n ==> ts[i] != Hole(key))
    requires (n < |ts| ==> ts[n] == Hole(key)) && WellFormed(t) && f < Show(t)
    ensures Find(Render(ts) + f, Show(Hole(key))) == if n < |ts| then |Render(ts[..n])| else |Render(ts) + f| + 1
  {
    hide Find, OccursAt, Plain, Name, WellFormed, AllWellFormed, Render, Show;
    if |ts| == 0 {
      RenderNone(ts, f);
      NotFoundInFragment(f, t, key);
    } else {
      RenderFirst(ts, f);
      if n == 0 {
        RenderNone(ts[..n], f);
        FoundFirst(Render(ts) + f, Show(Hole(key)));
      } else {
        TokensWellFormed(ts);
        SkipToken(ts[0], key, Render(ts[1..]) + f);
        FindsHoleBefore(ts[1..], f, t, key, n - 1);
        RenderFirst(ts[..n], f);
        assert ts[..n][1..] == ts[1..][..n - 1];
      }
    }
  }

  lemma FindsHole(ts: seq<Token>, key: string, n: nat)
    requires AllWellFormed(ts) && Name(key) && n <= |ts| && (forall i :: 0 <= i < n ==> ts[i] != Hole(key))
    requires n < |ts| ==> ts[n] == Hole(key)
    ensures Find(Render(ts), "{{" + key + "}}") == if n < |ts| then |Render(ts[..n])| else |Render(ts)| + 1
  {
    FindsHoleBefore(ts, "", Hole(key), key, n);
    assert Render(ts) + "" == Render(ts);
    hide Find, Render;
  }

  function Holes(ts: seq<Token>, key: string): nat {
    if |ts| == 0 then 0 else (if ts[0] == Hole(key) then 1 else 0) + Holes(ts[1..], key)
  }

  lemma {:induction false} HolesAdd(a: seq<Token>, b: seq<Token>, key: string)
    ensures Holes(a + b, key) == Holes(a, key) + Holes(b, key)
  {
    if |a| == 0 { assert a + b == b; } else { assert (a + b)[1..] == a[1..] + b; HolesAdd(a[1..], b, key); }
  }

  /** The first hole of a key, or the number of tokens. */
  function FirstHole(ts: seq<Token>, key: string): (n: nat)
    ensures n <= |ts| && (forall i :: 0 <= i < n ==> ts[i] != Hole(key)) && (n < |ts| ==> ts[n] == Hole(key))
  {
    if |ts| == 0 || ts[0] == Hole(key) then 0 else FirstHole(ts[1..], key) + 1
  }

  lemma RenderLength(ts: seq<Token>)
    requires |ts| > 0
    ensures |Render(ts)| == |Show(ts[0])| + |Render(ts[1..])|
  {
  }

  lemma ShowLength(t: Token, key: string, value: string)
    ensures |value| >= |key| + 4 ==> |Show(FillOne(t, key, value))| >= |Show(t)|
    ensures |value| <= |key| + 4 ==> |Show(FillOne(t, key, value))| <= |Show(t)|
  {
  }

  /** Filling grows or shrinks the text by the same amount at every hole. */
  lemma {:induction false} FillLength(ts: seq<Token>, key: string, value: string)
    ensures |value| >= |key| + 4 ==> |Render(Fill(ts, key, value))| >= |Render(ts)|
    ensures |value| <= |key| + 4 ==> |Render(Fill(ts, key, value))| <= |Render(ts)|
  {
    var full := Fill(ts, key, value);
    if |ts| == 0 {
      assert full == ts;
    } else {
      FillLength(ts[1..], key, value);
      ShowLength(ts[0], key, value);
      assert full[0] == FillOne(ts[0], key, value);
      assert full[1..] == Fill(ts[1..], key, value);
      hide Render, Show, Fill, FillOne;
      RenderLength(ts);
      RenderLength(full);
    }
  }

  lemma AllowedIsPlain(value: string)
    requires Allowed(value)
    ensures Plain(value)
  {
    assert '{' in FORBIDDEN && '}' in FORBIDDEN;
  }

  lemma RenderAt(ts: seq<Token>, t: Token, n: nat)
    requires n < |ts|
    ensures Render(ts[n := t]) == Render(ts[..n]) + (Show(t) + Render(ts[n + 1..]))
  {
    var back := [t] + ts[n + 1..];
    assert ts[n := t] == ts[..n] + back;
    RenderAdd(ts[..n], back);
    assert back[1..] == ts[n + 1..];
  }

  lemma ShowHole(key: string)
    ensures |Show(Hole(key))| == |key| + 4
  {
  }

  lemma ReplaceAllOnce(text: string, key: string, value: string)
    requires Allowed(value)
    ensures var i, p := Find(text, Placeholder(key)), Placeholder(key);
      if i > |text| then ReplaceAll(text, key, value) == text
      else i + |p| <= |text| && ReplaceAll(text, key, value) == ReplaceAll(ReplaceAt(text, i, |p|, value), key, value)
  {
    hide Find, ReplaceAt, Placeholder, Allowed;
    if Find(text, Placeholder(key)) <= |text| { ReplacementLowersBraces(text, key, value); }
  }

  lemma PlaceholderIsHole(key: string)
    requires Name(key)
    ensures Placeholder(key) == Show(Hole(key)) == "{{" + key + "}}" && |Show(Hole(key))| == |key| + 4
  {
  }

  /** The two limited appends of a replacement are one. */
  lemma ReplaceBetween(s: string, before: string, p: string, after: string, value: string)
    requires s == before + (p + after)
    ensures |before| + |p| <= |s| && ReplaceAt(s, |before|, |p|, value) == Cut(before + (value + after), CAPACITY)
  {
    hide Cut;
    var n := |before| + |p|;
    assert s[..|before|] == before;
    assert s[n..] == after;
    CutTwice(before + value, after);
    assert before + (value + after) == before + value + after;
  }

  lemma CutTwice(a: string, b: string)
    ensures Cut(Cut(a, CAPACITY) + b, CAPACITY) == Cut(a + b, CAPACITY)
  {
  }

  /** One replacement in the buffer fills one hole, if the result fits. */
  lemma ReplaceOne(ts: seq<Token>, key: string, value: string, n: nat)
    requires n < |ts| && ts[n] == Hole(key) && |Render(ts[n := Text(value)])| < CAPACITY
    ensures var s, i := Render(ts), |Render(ts[..n])|;
      i + |key| + 4 <= |s| && ReplaceAt(s, i, |key| + 4, value) == Render(ts[n := Text(value)])
  {
    assert Show(Text(value)) == value;
    hide Render, Show, ReplaceAt;
    assert ts[n := Hole(key)] == ts;
    RenderAt(ts, Hole(key), n);
    RenderAt(ts, Text(value), n);
    ShowHole(key);
    ReplaceBetween(Render(ts), Render(ts[..n]), Show(Hole(key)), Render(ts[n + 1..]), value);
  }

  /** The text after one replacement, and that the loop goes on from there. */
  lemma ReplaceStep(ts: seq<Token>, key: string, value: string, n: nat)
    requires AllWellFormed(ts) && Name(key) && Allowed(value) && n == FirstHole(ts, key)
    requires n < |ts| ==> |Render(ts[n := Text(value)])| < CAPACITY
    ensures n == |ts| ==> ReplaceAll(Render(ts), key, value) == Render(ts)
    ensures n < |ts| ==> ReplaceAll(Render(ts), key, value) == ReplaceAll(Render(ts[n := Text(value)]), key, value)
  {
    hide Render, Find, ReplaceAt, ReplaceAll, Placeholder, AllWellFormed, Allowed, FirstHole, Name;
    FindsHole(ts, key, n);
    PlaceholderIsHole(key);
    ReplaceAllOnce(Render(ts), key, value);
    if n < |ts| {
      RenderPrefix(ts, n);
      ReplaceOne(ts, key, value, n);
    }
  }

  lemma RenderPrefix(ts: seq<Token>, n: nat)
    requires n <= |ts|
    ensures |Render(ts[..n])| <= |Render(ts)|
  {
    assert ts == ts[..n] + ts[n..];
    RenderAdd(ts[..n], ts[n..]);
  }

  lemma FillsTheSame(ts: seq<Token>, key: string, value: string, n: nat)
    requires n < |ts| && ts[n] == Hole(key)
    ensures Fill(ts[n := Text(value)], key, value) == Fill(ts, key, value)
  {
  }

  /** Replacing one key in the rendered text is filling its holes, if text and result fit the buffer. */
  lemma {:induction false} ReplaceIsFill(ts: seq<Token>, key: string, value: string)
    requires AllWellFormed(ts) && Name(key) && Allowed(value)
    requires |Render(ts)| < CAPACITY && |Render(Fill(ts, key, value))| < CAPACITY
    ensures ReplaceAll(Render(ts), key, value) == Render(Fill(ts, key, value))
    decreases Holes(ts, key)
  {
    hide Render, Find, Holes, ReplaceAt, ReplaceAll, Allowed;
    var n := FirstHole(ts, key);
    if n == |ts| {
      assert Fill(ts, key, value) == ts;
      ReplaceStep(ts, key, value, n);
    } else {
      hide Fill, FirstHole, AllWellFormed, Name;
      StillWellFormed(ts, key, value, n);
      FewerHoles(ts, key, value, n);
      FillsTheSame(ts, key, value, n);
      FitsAfter(ts, key, value, n);
      ReplaceStep(ts, key, value, n);
      ReplaceIsFill(ts[n := Text(value)], key, value);
    }
  }

  lemma StillWellFormed(ts: seq<Token>, key: string, value: string, n: nat)
    requires AllWellFormed(ts) && Allowed(value) && n < |ts|
    ensures AllWellFormed(ts[n := Text(value)])
  {
    AllowedIsPlain(value);
  }

  lemma FewerHoles(ts: seq<Token>, key: string, value: string, n: nat)
    requires n < |ts| && ts[n] == Hole(key)
    ensures Holes(ts[n := Text(value)], key) < Holes(ts, key)
  {
    assert ts == ts[..n] + ([Hole(key)] + ts[n + 1..]);
    HolesAdd(ts[..n], [Hole(key)] + ts[n + 1..], key);
    assert ([Hole(key)] + ts[n + 1..])[1..] == ts[n + 1..];
    assert ts[n := Text(value)] == ts[..n] + ([Text(value)] + ts[n + 1..]);
    HolesAdd(ts[..n], [Text(value)] + ts[n + 1..], key);
    assert ([Text(value)] + ts[n + 1..])[1..] == ts[n + 1..];
  }

  /** With one hole filled the text is no longer than it was, or no longer than it will be. */
  lemma FitsAfter(ts: seq<Token>, key: string, value: string, n: nat)
    requires n < |ts| && ts[n] == Hole(key) && |Render(ts)| < CAPACITY && |Render(Fill(ts, key, value))| < CAPACITY
    ensures |Render(ts[n := Text(value)])| < CAPACITY
  {
    FillLength(ts[n := Text(value)], key, value);
    FillsTheSame(ts, key, value, n);
    ShowHole(key);
    assert ts[n := Hole(key)] == ts;
    RenderAt(ts, Hole(key), n);
    RenderAt(ts, Text(value), n);
    hide Render, Fill;
  }

  // ---------------------------------------------------------------- any order of keys

  function FillIn(t: Token, values: map<string, string>): Token {
    if t.Hole? && t.name in values then Text(values[t.name]) else t
  }

  /** All holes filled at once from a table of values. */
  function FillAll(ts: seq<Token>, values: map<string, string>): (r: seq<Token>)
    ensures |r| == |ts|
  {
    seq(|ts|, i requires 0 <= i < |ts| => FillIn(ts[i], values))
  }

  function TableOf(params: seq<Param>): map<string, string> {
    if |params| == 0 then map[] else TableOf(params[..|params| - 1])[params[|params| - 1].key := params[|params| - 1].value]
  }

  predicate DistinctKeys(params: seq<Param>) { forall i, k :: 0 <= i < k < |params| ==> params[i].key != params[k].key }

  /** Before any key and after each of them the text fits the buffer. */
  predicate AlwaysFits(ts: seq<Token>, params: seq<Param>) {
    forall k :: 0 <= k <= |params| ==> |Render(FillAll(ts, TableOf(params[..k])))| < CAPACITY
  }

  lemma {:induction false} TableKeys(params: seq<Param>, key: string)
    ensures key in TableOf(params) <==> exists i :: 0 <= i < |params| && params[i].key == key
  {
    if |params| > 0 { TableKeys(params[..|params| - 1], key); }
  }

  lemma FillNext(ts: seq<Token>, values: map<string, string>, key: string, value: string)
    requires key !in values
    ensures Fill(FillAll(ts, values), key, value) == FillAll(ts, values[key := value])
  {
  }

  lemma FillAllWellFormed(ts: seq<Token>, values: map<string, string>)
    requires AllWellFormed(ts) && forall k :: k in values ==> Plain(values[k])
    ensures AllWellFormed(FillAll(ts, values))
  {
  }

  lemma {:induction false} TablePlain(params: seq<Param>)
    requires forall i :: 0 <= i < |params| ==> Allowed(params[i].value)
    ensures forall k :: k in TableOf(params) ==> Plain(TableOf(params)[k])
  {
    if |params| > 0 {
      TablePlain(params[..|params| - 1]);
      AllowedIsPlain(params[|params| - 1].value);
    }
  }

  lemma FitsBefore(ts: seq<Token>, params: seq<Param>, n: nat)
    requires AlwaysFits(ts, params) && n <= |params|
    ensures AlwaysFits(ts, params[..n]) && |Render(FillAll(ts, TableOf(params[..n])))| < CAPACITY
  {
    hide Render, FillAll, TableOf;
    forall k | 0 <= k <= n ensures |Render(FillAll(ts, TableOf(params[..n][..k])))| < CAPACITY {
      assert params[..n][..k] == params[..k];
    }
  }

  lemma LastKeyIsNew(params: seq<Param>, n: nat)
    requires DistinctKeys(params) && |params| == n + 1
    ensures params[n].key !in TableOf(params[..n])
  {
    hide TableOf;
    TableKeys(params[..n], params[n].key);
  }

  /** The last key's replacement, after the others are filled. */
  lemma LastKey(ts: seq<Token>, values: map<string, string>, p: Param)
    requires AllWellFormed(ts) && Name(p.key) && Allowed(p.value) && p.key !in values
    requires forall k :: k in values ==> Plain(values[k])
    requires |Render(FillAll(ts, values))| < CAPACITY && |Render(FillAll(ts, values[p.key := p.value]))| < CAPACITY
    ensures ReplaceAll(Render(FillAll(ts, values)), p.key, p.value) == Render(FillAll(ts, values[p.key := p.value]))
  {
    hide Fill, FillAll, Render, ReplaceAll, AllWellFormed, Name, Allowed;
    FillNext(ts, values, p.key, p.value);
    FillAllWellFormed(ts, values);
    ReplaceIsFill(FillAll(ts, values), p.key, p.value);
  }

  lemma FillNothing(ts: seq<Token>, params: seq<Param>)
    requires |params| == 0
    ensures FillAll(ts, TableOf(params)) == ts
  {
  }

  /** Key after key is all keys at once. */
  lemma {:induction false} KeysAreSimultaneous(ts: seq<Token>, params: seq<Param>)
    requires AllWellFormed(ts) && DistinctKeys(params) && AlwaysFits(ts, params)
    requires forall i :: 0 <= i < |params| ==> Allowed(params[i].value) && Name(params[i].key)
    ensures ReplaceKeys(Render(ts), params) == Render(FillAll(ts, TableOf(params)))
  {
    hide Fill, FillAll, Render, ReplaceAll, AllWellFormed, AlwaysFits, Name, Allowed;
    if |params| == 0 {
      FillNothing(ts, params);
    } else {
      var n := |params| - 1;
      FitsBefore(ts, params, n);
      FitsBefore(ts, params, n + 1);
      assert params[..n + 1] == params;
      LastKeyIsNew(params, n);
      TablePlain(params[..n]);
      KeysAreSimultaneous(ts, params[..n]);
      LastKey(ts, TableOf(params[..n]), params[n]);
    }
  }

  /** Two orders of the same parameters give the same command, as long as everything fits. */
  lemma OrderDoesNotMatter(ts: seq<Token>, a: seq<Param>, b: seq<Param>)
    requires AllWellFormed(ts) && DistinctKeys(a) && DistinctKeys(b) && AlwaysFits(ts, a) && AlwaysFits(ts, b)
    requires forall i :: 0 <= i < |a| ==> Allowed(a[i].value) && Name(a[i].key)
    requires forall i :: 0 <= i < |b| ==> Allowed(b[i].value) && Name(b[i].key)
    requires multiset(a) == multiset(b)
    ensures ReplaceKeys(Render(ts), a) == ReplaceKeys(Render(ts), b)
  {
    KeysAreSimultaneous(ts, a);
    KeysAreSimultaneous(ts, b);
    SameTable(a, b);
  }

  lemma {:induction false} TableValue(params: seq<Param>, i: nat)
    requires DistinctKeys(params) && i < |params|
    ensures params[i].key in TableOf(params) && TableOf(params)[params[i].key] == params[i].value
  {
    if i < |params| - 1 { TableValue(params[..|params| - 1], i); }
  }

  lemma SameTable(a: seq<Param>, b: seq<Param>)
    requires DistinctKeys(a) && DistinctKeys(b) && multiset(a) == multiset(b)
    ensures TableOf(a) == TableOf(b)
  {
    TableWithin(a, b);
    TableWithin(b, a);
  }

  lemma TableWithin(a: seq<Param>, b: seq<Param>)
    requires DistinctKeys(a) && DistinctKeys(b) && multiset(a) == multiset(b)
    ensures forall key :: key in TableOf(a) ==> key in TableOf(b) && TableOf(b)[key] == TableOf(a)[key]
  {
    forall key | key in TableOf(a) ensures key in TableOf(b) && TableOf(b)[key] == TableOf(a)[key] {
      TableKeys(a, key);
      var i :| 0 <= i < |a| && a[i].key == key;
      assert a[i] in multiset(a);
      assert a[i] in b;
      var k :| 0 <= k < |b| && b[k] == a[i];
      TableValue(a, i);
      TableValue(b, k);
    }
  }
}
