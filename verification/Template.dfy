/** The template engine of `helpers/template.go`: nested `strings.ReplaceAll` calls over unordered
    maps, and the regular expression that finds what they left. */
module Template {

  // strings.ReplaceAll and the regular expression `\${[-_a-zA-Z0-9.]+}`

  /** Left to right, without overlaps.  `old` is never empty here. */
  function ReplaceAll(s: string, old': string, new': string): string
    requires old' != ""
  {
    if |s| < |old'| then s
    else if old' <= s then new' + ReplaceAll(s[|old'|..], old', new')
    else [s[0]] + ReplaceAll(s[1..], old', new')
  }

  function Token(name: string): string {
    "${" + name + "}"
  }

  predicate IsNameChar(c: char) {
    c == '-' || c == '_' || c == '.' || 'a' <= c <= 'z' || 'A' <= c <= 'Z' || '0' <= c <= '9'
  }

  predicate IsName(s: string) {
    s != "" && forall i | 0 <= i < |s| :: IsNameChar(s[i])
  }

  function NamePrefix(s: string): (n: nat)
    ensures n <= |s| && (forall i | 0 <= i < n :: IsNameChar(s[i])) && (n < |s| ==> !IsNameChar(s[n]))
  {
    if s == "" || !IsNameChar(s[0]) then 0 else 1 + NamePrefix(s[1..])
  }

  /** The length of the match of the expression at the start of `s`, 0 when there is none.  `}` is
      no name character, so the greedy repetition has one way to match. */
  function MatchLength(s: string): (n: nat)
    ensures n <= |s|
    ensures n > 0 ==> n > 3 && s[0] == '$' && IsName(s[2..n - 1]) && s[..n] == Token(s[2..n - 1])
  {
    if |s| >= 2 && s[0] == '$' && s[1] == '{' then
      var k := NamePrefix(s[2..]);
      if k > 0 && 2 + k < |s| && s[2 + k] == '}' then
        assert forall i | 0 <= i < k :: s[2..2 + k][i] == s[2..][i];
        k + 3
      else 0
    else 0
  }

  lemma MatchLengthOfToken(name: string, rest: string)
    requires IsName(name)
    ensures MatchLength(Token(name) + rest) == |Token(name)|
  {
    var s := Token(name) + rest;
    var t := s[2..];
    assert t == name + "}" + rest;
    assert t[|name|] == '}';
    var k := NamePrefix(t);
    assert forall i | 0 <= i < |name| :: t[i] == name[i];
  }

  function FindAll(s: string): seq<string> {
    if s == "" then []
    else if MatchLength(s) > 0 then [s[..MatchLength(s)]] + FindAll(s[MatchLength(s)..])
    else FindAll(s[1..])
  }

  function Unique(list: seq<string>): (r: seq<string>)
    ensures forall x :: x in r <==> x in list
    ensures forall i, j | 0 <= i < j < |r| :: r[i] != r[j]
  {
    if list == [] then []
    else
      assert list == list[..|list| - 1] + [list[|list| - 1]];
      var init := Unique(list[..|list| - 1]);
      if list[|list| - 1] in init then init else init + [list[|list| - 1]]
  }

  method GetUnresolvedTemplatesFromString(s: string) returns (list: seq<string>)
    ensures list == Unique(FindAll(s))
  {
    var slice := FindAll(s);
    var keys: map<string, bool> := map[];
    list := [];
    for i := 0 to |slice|
      invariant list == Unique(slice[..i])
      invariant forall x :: x in keys <==> x in list
    {
      assert slice[..i + 1][..i] == slice[..i];
      var entry := slice[i];
      if entry !in keys {
        keys := keys[entry := true];
        list := list + [entry];
      }
    }
    assert slice[..|slice|] == slice;
  }

  // Texts made of tokens and of text that cannot take part in one

  datatype Segment = Text(text: string) | Var(name: string)

  /** No `${`, and no `$` at the end that a following `{` could complete. */
  predicate IsPlain(s: string) {
    forall i | 0 <= i < |s| && s[i] == '$' :: i + 1 < |s| && s[i + 1] != '{'
  }

  predicate IsVarName(s: string) { '$' !in s && '}' !in s }

  predicate IsValidSegment(g: Segment) {
    match g case Text(t) => IsPlain(t) case Var(n) => IsVarName(n)
  }

  predicate IsValid(segments: seq<Segment>) {
    forall i | 0 <= i < |segments| :: IsValidSegment(segments[i])
  }

  function RenderSegment(g: Segment): string {
    match g case Text(t) => t case Var(n) => Token(n)
  }

  function Render(segments: seq<Segment>): string {
    if segments == [] then "" else RenderSegment(segments[0]) + Render(segments[1..])
  }

  /** A token starts at `i`: `${`, a name without `$` and `}`, and `}`. */
  predicate TokenAt(s: string, i: nat) {
    && i + 1 < |s| && s[i] == '$' && s[i + 1] == '{'
    && exists j | i + 2 <= j < |s| :: s[j] == '}' && IsVarName(s[i + 2..j])
  }

  /** Every `$` starts a token, or is followed by something that is neither `{` nor a token. */
  predicate IsWellFormed(s: string) {
    forall i: nat | i < |s| && s[i] == '$' ::
      TokenAt(s, i) || (i + 1 < |s| && s[i + 1] != '{' && !TokenAt(s, i + 1))
  }

  lemma TokenAtSuffix(s: string, k: nat, i: nat)
    requires k + i < |s|
    ensures TokenAt(s[k..], i) <==> TokenAt(s, k + i)
  {
    var t := s[k..];
    if TokenAt(s, k + i) {
      var j :| k + i + 2 <= j < |s| && s[j] == '}' && IsVarName(s[k + i + 2..j]);
      assert t[j - k] == '}' && t[i + 2..j - k] == s[k + i + 2..j];
    }
    if TokenAt(t, i) {
      var j :| i + 2 <= j < |t| && t[j] == '}' && IsVarName(t[i + 2..j]);
      assert s[k + j] == '}' && s[k + i + 2..k + j] == t[i + 2..j];
    }
  }

  lemma WellFormedSuffix(s: string, k: nat)
    requires IsWellFormed(s) && k <= |s|
    ensures IsWellFormed(s[k..])
  {
    var t := s[k..];
    forall i: nat | i < |t| && t[i] == '$'
      ensures TokenAt(t, i) || (i + 1 < |t| && t[i + 1] != '{' && !TokenAt(t, i + 1))
    {
      assert s[k + i] == '$';
      TokenAtSuffix(s, k, i);
      if !TokenAt(s, k + i) {
        assert s[k + i + 1] == t[i + 1];
        TokenAtSuffix(s, k, i + 1);
      }
    }
  }

  /** Where the first token at or after `k` starts. */
  function FirstToken(s: string, k: nat): (j: nat)
    requires k <= |s|
    ensures k <= j <= |s| && (j < |s| ==> TokenAt(s, j))
    ensures forall i: nat | k <= i < j :: !TokenAt(s, i)
    decreases |s| - k
  {
    if k == |s| || TokenAt(s, k) then k else FirstToken(s, k + 1)
  }

  lemma PlainUpToToken(s: string)
    requires IsWellFormed(s)
    ensures IsPlain(s[..FirstToken(s, 0)])
  {
    var j := FirstToken(s, 0);
    forall i: nat | i < j && s[i] == '$' ensures i + 1 < j && s[i + 1] != '{' {
      assert !TokenAt(s, i);
    }
  }

  ghost function TokenEnd(s: string): (j: nat)
    requires TokenAt(s, 0)
    ensures 2 <= j < |s| && s == Token(s[2..j]) + s[j + 1..] && IsVarName(s[2..j])
  {
    var j :| 2 <= j < |s| && s[j] == '}' && IsVarName(s[2..j]);
    j
  }

  lemma RenderCons(g: Segment, rest: seq<Segment>)
    ensures Render([g] + rest) == RenderSegment(g) + Render(rest)
  {
    assert ([g] + rest)[1..] == rest;
  }

  ghost function Parse(s: string): (segments: seq<Segment>)
    requires IsWellFormed(s)
    ensures IsValid(segments) && Render(segments) == s
  {
    if s == "" then []
    else if FirstToken(s, 0) > 0 then
      var j := FirstToken(s, 0);
      WellFormedSuffix(s, j);
      PlainUpToToken(s);
      RenderCons(Text(s[..j]), Parse(s[j..]));
      [Text(s[..j])] + Parse(s[j..])
    else
      var j := TokenEnd(s);
      WellFormedSuffix(s, j + 1);
      RenderCons(Var(s[2..j]), Parse(s[j + 1..]));
      [Var(s[2..j])] + Parse(s[j + 1..])
  }

  // Simultaneous substitution

  function SubstSegment(g: Segment, values: map<string, string>): Segment {
    if g.Var? && g.name in values then Text(values[g.name]) else g
  }

  /** Every token at once; the values put in are not looked at again. */
  function Subst(segments: seq<Segment>, values: map<string, string>): (r: seq<Segment>)
    ensures |r| == |segments| && forall i | 0 <= i < |r| :: r[i] == SubstSegment(segments[i], values)
  {
    seq(|segments|, i requires 0 <= i < |segments| => SubstSegment(segments[i], values))
  }

  predicate ArePlain(values: map<string, string>) {
    forall name | name in values :: IsVarName(name) && IsPlain(values[name])
  }

  predicate AllPlain(templates: seq<map<string, string>>) {
    forall i | 0 <= i < |templates| :: ArePlain(templates[i])
  }

  /** The first getter that has a name gives its value. */
  function Bind(templates: seq<map<string, string>>): map<string, string> {
    if templates == [] then map[]
    else templates[|templates| - 1] + Bind(templates[..|templates| - 1])
  }

  lemma {:induction false} BindIsFirst(templates: seq<map<string, string>>, name: string)
    ensures name in Bind(templates) <==> exists i :: 0 <= i < |templates| && name in templates[i]
    ensures forall i | 0 <= i < |templates| && name in templates[i]
        && (forall j | 0 <= j < i :: name !in templates[j]) ::
              Bind(templates)[name] == templates[i][name]
    ensures AllPlain(templates) ==> ArePlain(Bind(templates))
  {
    if templates != [] {
      var front, last := templates[..|templates| - 1], templates[|templates| - 1];
      BindIsFirst(front, name);
      assert Bind(templates) == last + Bind(front);
      assert forall i | 0 <= i < |front| :: templates[i] == front[i];
      hide Bind;
      if name in Bind(front) {
        var i :| 0 <= i < |front| && name in front[i];
        assert name in templates[i];
      }
    }
  }

  // One ReplaceAll is one substitution

  lemma {:induction false} ReplaceAllSkipsPlain(text: string, rest: string, name: string, value: string)
    requires IsPlain(text)
    ensures ReplaceAll(text + rest, Token(name), value) == text + ReplaceAll(rest, Token(name), value)
  {
    if text == "" {
      assert text + rest == rest;
    } else {
      var s := text + rest;
      ReplaceAllSkipsPlain(text[1..], rest, name, value);
      assert s[1..] == text[1..] + rest;
      assert s[0] != '$' || s[1] != '{';
      assert !(Token(name) <= s) by {
        assert Token(name)[0] == '$' && Token(name)[1] == '{';
      }
    }
  }

  lemma DifferentTokensDoNotMatch(name: string, other: string, rest: string)
    requires IsVarName(name) && IsVarName(other) && Token(name) <= Token(other) + rest
    ensures name == other
  {
    var s := Token(other) + rest;
    assert forall i | 0 <= i < |Token(name)| :: Token(name)[i] == s[i];
    var k := if |name| < |other| then |name| else |other|;
    assert Token(name)[2 + k] == s[2 + k];
    assert |name| == |other|;
    assert forall i | 0 <= i < |name| :: name[i] == Token(name)[i + 2] == s[i + 2] == other[i];
  }

  lemma ReplaceAllOnToken(name: string, other: string, rest: string, value: string)
    requires IsVarName(name) && IsVarName(other)
    ensures ReplaceAll(Token(other) + rest, Token(name), value) ==
            (if other == name then value else Token(other)) + ReplaceAll(rest, Token(name), value)
  {
    var s := Token(other) + rest;
    if other == name {
      assert s[|Token(name)|..] == rest;
    } else {
      if Token(name) <= s {
        DifferentTokensDoNotMatch(name, other, rest);
      }
      var tail := "{" + other + "}";
      assert s[1..] == tail + rest;
      ReplaceAllSkipsPlain(tail, rest, name, value);
      assert [s[0]] + tail == Token(other);
      if |s| < |Token(name)| {
        assert |rest| < |Token(name)|;
      }
    }
  }

  lemma {:induction false} ReplaceAllIsSubst(segments: seq<Segment>, name: string, value: string)
    requires IsValid(segments) && IsVarName(name)
    ensures ReplaceAll(Render(segments), Token(name), value) == Render(Subst(segments, map[name := value]))
    ensures IsPlain(value) ==> IsValid(Subst(segments, map[name := value]))
  {
    if segments != [] {
      var rest := Render(segments[1..]);
      ReplaceAllIsSubst(segments[1..], name, value);
      assert Subst(segments, map[name := value])[1..] == Subst(segments[1..], map[name := value]);
      match segments[0]
      case Text(t) => ReplaceAllSkipsPlain(t, rest, name, value);
      case Var(n) => ReplaceAllOnToken(name, n, rest, value);
    }
  }

  /** Substituting one more name after others; a name already bound is gone. */
  lemma SubstOneMore(segments: seq<Segment>, values: map<string, string>, name: string, value: string)
    ensures Subst(Subst(segments, values), map[name := value]) == Subst(segments, map[name := value] + values)
  {
  }

  lemma SubstIsValid(segments: seq<Segment>, values: map<string, string>)
    requires IsValid(segments) && ArePlain(values)
    ensures IsValid(Subst(segments, values))
  {
    var r := Subst(segments, values);
    forall i | 0 <= i < |r| ensures IsValidSegment(r[i]) {
      assert IsValidSegment(segments[i]);
    }
  }

  /** The inner loop: one map, walked in any order, on top of what is bound already. */
  method ReplaceAllValues(s: string, values: map<string, string>, ghost segments: seq<Segment>,
                          ghost bound: map<string, string>)
    returns (result: string)
    ensures IsValid(segments) && ArePlain(values) && ArePlain(bound) && s == Render(Subst(segments, bound)) ==>
              result == Render(Subst(segments, values + bound))
  {
    ghost var good := IsValid(segments) && ArePlain(values) && ArePlain(bound) && s == Render(Subst(segments, bound));
    ghost var now := bound;
    result := s;
    var names := values.Keys;
    while names != {}
      invariant names <= values.Keys && now == (values - names) + bound
      invariant good ==> result == Render(Subst(segments, now))
    {
      var name :| name in names;
      if good {
        SubstIsValid(segments, now);
        ReplaceAllIsSubst(Subst(segments, now), name, values[name]);
        SubstOneMore(segments, now, name, values[name]);
      }
      result := ReplaceAll(result, Token(name), values[name]);
      names := names - {name};
      assert map[name := values[name]] + now == (values - names) + bound;
      now := map[name := values[name]] + now;
    }
    assert values - {} == values;
  }

  /** The nested loops equal one simultaneous substitution, whatever the order in which each map is
      walked; for a repeated name the first getter wins. */
  method ReplaceTemplateVariablesInString(s: string, templates: seq<map<string, string>>) returns (result: string)
    ensures IsWellFormed(s) && AllPlain(templates) ==> result == Render(Subst(Parse(s), Bind(templates)))
  {
    ghost var good := IsWellFormed(s) && AllPlain(templates);
    ghost var segments := if good then Parse(s) else [];
    result := s;
    assert Subst(segments, map[]) == segments;
    for i := 0 to |templates|
      invariant good ==> result == Render(Subst(segments, Bind(templates[..i])))
    {
      assert templates[..i + 1][..i] == templates[..i];
      BindIsFirst(templates[..i], "");
      assert templates[..i + 1][i] == templates[i];
      result := ReplaceAllValues(result, templates[i], segments, Bind(templates[..i]));
    }
    assert templates[..|templates|] == templates;
  }

  // Without the restriction on values

  ghost predicate OccursIn(s: string, t: string) {
    exists i :: 0 <= i <= |s| - |t| && t <= s[i..]
  }

  /** How often `ReplaceAll` replaces. */
  function Count(s: string, t: string): nat
    requires t != ""
  {
    if |s| < |t| then 0
    else if t <= s then 1 + Count(s[|t|..], t)
    else Count(s[1..], t)
  }

  lemma {:induction false} CountsExactly(s: string, t: string)
    requires t != ""
    ensures Count(s, t) > 0 <==> OccursIn(s, t)
  {
    if |s| >= |t| {
      if t <= s {
        assert t <= s[0..];
      } else {
        CountsExactly(s[1..], t);
        hide Count;
        if OccursIn(s, t) {
          var i :| 0 <= i <= |s| - |t| && t <= s[i..];
          assert s[0..] == s && i > 0;
          assert s[1..][i - 1..] == s[i..];
        }
        if OccursIn(s[1..], t) {
          var i :| 0 <= i <= |s[1..]| - |t| && t <= s[1..][i..];
          assert s[1..][i..] == s[i + 1..];
        }
      }
    }
  }

  lemma {:induction false} ReplaceAllLength(s: string, t: string, v: string)
    requires t != ""
    ensures |ReplaceAll(s, t, v)| == |s| + Count(s, t) * (|v| - |t|)
  {
    if |s| >= |t| {
      if t <= s {
        ReplaceAllLength(s[|t|..], t, v);
        var n := Count(s[|t|..], t);
        assert (1 + n) * (|v| - |t|) == |v| - |t| + n * (|v| - |t|);
      } else {
        ReplaceAllLength(s[1..], t, v);
      }
    }
  }

  lemma {:induction false} ReplaceByItself(s: string, t: string)
    requires t != ""
    ensures ReplaceAll(s, t, t) == s
  {
    if |s| >= |t| {
      if t <= s {
        ReplaceByItself(s[|t|..], t);
      } else {
        ReplaceByItself(s[1..], t);
      }
    }
  }

  lemma {:induction false} ReplaceBySameLength(s: string, t: string, v: string)
    requires t != "" && |v| == |t| && v != t && Count(s, t) > 0
    ensures ReplaceAll(s, t, v) != s
  {
    if t <= s {
      assert ReplaceAll(s, t, v)[..|t|] == v && s[..|t|] == t;
    } else {
      ReplaceBySameLength(s[1..], t, v);
      assert ReplaceAll(s, t, v)[1..] == ReplaceAll(s[1..], t, v);
    }
  }

  /** A replacement changes the text exactly when there is something to replace, by something else. */
  lemma ReplaceAllChangesExactly(s: string, t: string, v: string)
    requires t != ""
    ensures ReplaceAll(s, t, v) != s <==> OccursIn(s, t) && v != t
  {
    hide ReplaceAll, Count, OccursIn;
    CountsExactly(s, t);
    ReplaceAllLength(s, t, v);
    if v == t {
      ReplaceByItself(s, t);
    } else if Count(s, t) == 0 {
      NothingToReplace(s, t, v);
    } else if |v| == |t| {
      ReplaceBySameLength(s, t, v);
    } else {
      IsNotZero(Count(s, t), |v| - |t|);
    }
  }

  lemma IsNotZero(n: int, k: int)
    requires n != 0 && k != 0
    ensures n * k != 0
  {
  }

  lemma {:induction false} NothingToReplace(s: string, t: string, v: string)
    requires t != "" && Count(s, t) == 0
    ensures ReplaceAll(s, t, v) == s
  {
    if |s| >= |t| {
      NothingToReplace(s[1..], t, v);
    }
  }

  /** The end of `value` can become the start of a token of this name, or the token is in it. */
  ghost predicate Completes(value: string, name: string) {
    || OccursIn(value, Token(name))
    || exists n: nat :: EndsWithPrefix(value, name, n)
  }

  /** `value` ends with the first `n` characters of the token, and these are not all of it. */
  ghost predicate EndsWithPrefix(value: string, name: string, n: nat) {
    0 < n < |Token(name)| && n <= |value| && value[|value| - n..] == Token(name)[..n]
  }

  lemma TailCompletes(value: string, name: string)
    requires value != "" && Completes(value[1..], name)
    ensures Completes(value, name)
  {
    var tail := value[1..];
    if OccursIn(tail, Token(name)) {
      var i :| 0 <= i <= |tail| - |Token(name)| && Token(name) <= tail[i..];
      assert tail[i..] == value[i + 1..];
    } else {
      var n: nat :| EndsWithPrefix(tail, name, n);
      assert tail[|tail| - n..] == value[|value| - n..];
      assert EndsWithPrefix(value, name, n);
    }
  }

  lemma PrefixCompletes(value: string, rest: string, name: string)
    requires value != "" && Token(name) <= value + rest
    ensures Completes(value, name)
  {
    var t := Token(name);
    if |t| <= |value| {
      assert t <= value[0..];
    } else {
      assert value == t[..|value|];
      assert EndsWithPrefix(value, name, |value|);
    }
  }

  /** Any other value is passed over, whatever follows it. */
  lemma {:induction false} ReplaceAllSkipsInert(value: string, rest: string, name: string, other: string)
    requires !Completes(value, name)
    ensures ReplaceAll(value + rest, Token(name), other) == value + ReplaceAll(rest, Token(name), other)
  {
    var s := value + rest;
    if value == "" {
      assert s == rest;
    } else {
      if Completes(value[1..], name) {
        TailCompletes(value, name);
      }
      if Token(name) <= s {
        PrefixCompletes(value, rest, name);
      }
      hide Completes;
      ReplaceAllSkipsInert(value[1..], rest, name, other);
      hide Token;
      assert s[1..] == value[1..] + rest;
      assert [value[0]] + value[1..] == value;
    }
  }

  /** One more replacement, by any value, when the values put in so far are passed over. */
  lemma {:induction false} ReplaceAllAfterInert(segments: seq<Segment>, bound: map<string, string>, name: string,
                                                value: string)
    requires IsValid(segments) && IsVarName(name) && name !in bound
    requires forall n | n in bound :: !Completes(bound[n], name)
    ensures ReplaceAll(Render(Subst(segments, bound)), Token(name), value) ==
            Render(Subst(segments, bound[name := value]))
  {
    if segments != [] {
      var rest, bound' := Render(Subst(segments[1..], bound)), bound[name := value];
      ReplaceAllAfterInert(segments[1..], bound, name, value);
      assert Subst(segments, bound)[1..] == Subst(segments[1..], bound);
      assert Subst(segments, bound')[1..] == Subst(segments[1..], bound');
      hide ReplaceAll, Completes;
      match segments[0]
      case Text(t) => ReplaceAllSkipsPlain(t, rest, name, value);
      case Var(n) =>
        if n in bound {
          ReplaceAllSkipsInert(bound[n], rest, name, value);
        } else {
          ReplaceAllOnToken(name, n, rest, value);
        }
    }
  }

  /** Putting in a name's own token changes nothing. */
  lemma {:induction false} OwnTokenIsNothing(segments: seq<Segment>, bound: map<string, string>, name: string)
    requires name !in bound
    ensures Render(Subst(segments, bound[name := Token(name)])) == Render(Subst(segments, bound))
  {
    if segments != [] {
      OwnTokenIsNothing(segments[1..], bound, name);
      var bound' := bound[name := Token(name)];
      assert Subst(segments, bound)[1..] == Subst(segments[1..], bound);
      assert Subst(segments, bound')[1..] == Subst(segments[1..], bound');
    }
  }

  /** No value can complete a token of another name, unless replacing that name does nothing. */
  ghost predicate AreHarmless(values: map<string, string>) {
    forall m, n | m in values && n in values && m != n :: values[n] == Token(n) || !Completes(values[m], n)
  }

  /** One map, walked in the order given. */
  function ReplaceEach(s: string, values: map<string, string>, order: seq<string>): string
    requires forall n | n in order :: n in values
  {
    if order == [] then s
    else
      var last := order[|order| - 1];
      ReplaceAll(ReplaceEach(s, values, order[..|order| - 1]), Token(last), values[last])
  }

  function Among(values: map<string, string>, order: seq<string>): map<string, string> {
    map n | n in values && n in order :: values[n]
  }

  lemma ReplaceOneMore(segments: seq<Segment>, bound: map<string, string>, name: string, value: string)
    requires IsValid(segments) && IsVarName(name) && name !in bound
    requires value == Token(name) || forall n | n in bound :: !Completes(bound[n], name)
    ensures ReplaceAll(Render(Subst(segments, bound)), Token(name), value) ==
            Render(Subst(segments, bound[name := value]))
  {
    hide ReplaceAll, Completes, Render, Subst;
    if value == Token(name) {
      ReplaceByItself(Render(Subst(segments, bound)), Token(name));
      OwnTokenIsNothing(segments, bound, name);
    } else {
      ReplaceAllAfterInert(segments, bound, name, value);
    }
  }

  /** With harmless values, plain or not, every order of any number of names replaces all of them at once. */
  lemma {:induction false} HarmlessIsAtOnce(s: string, values: map<string, string>, order: seq<string>)
    requires IsWellFormed(s) && AreHarmless(values) && forall n | n in values :: IsVarName(n)
    requires (forall n | n in order :: n in values) && forall i, j | 0 <= i < j < |order| :: order[i] != order[j]
    ensures ReplaceEach(s, values, order) == Render(Subst(Parse(s), Among(values, order)))
  {
    hide ReplaceAll, Completes, IsWellFormed, Token, Render, Parse, IsVarName;
    var segments := Parse(s);
    if order == [] {
      assert Subst(segments, Among(values, order)) == segments;
    } else {
      hide Subst;
      var front, last := order[..|order| - 1], order[|order| - 1];
      HarmlessIsAtOnce(s, values, front);
      assert Among(values, order) == Among(values, front)[last := values[last]];
      ReplaceOneMore(segments, Among(values, front), last, values[last]);
    }
  }

  function FirstThen(s: string, a: string, b: string, valueOfA: string, valueOfB: string): string {
    ReplaceAll(ReplaceAll(s, Token(a), valueOfA), Token(b), valueOfB)
  }

  /** The token of `a` and what the value of `a` leaves open of a token of `b`. */
  lemma Witness(a: string, b: string, valueOfA: string) returns (rest: string)
    requires IsVarName(a) && IsVarName(b) && a != b && Completes(valueOfA, b)
    ensures IsWellFormed(Token(a) + rest) && OccursIn(valueOfA + rest, Token(b))
    ensures forall i | 0 <= i < |rest| :: rest[i] != '$'
  {
    if OccursIn(valueOfA, Token(b)) {
      rest := "";
      var i :| 0 <= i <= |valueOfA| - |Token(b)| && Token(b) <= valueOfA[i..];
      assert valueOfA + rest == valueOfA;
    } else {
      var n: nat :| EndsWithPrefix(valueOfA, b, n);
      rest := Token(b)[n..];
      assert forall i | 1 <= i < |Token(b)| :: Token(b)[i] != '$';
      var k, s := |valueOfA| - n, valueOfA + rest;
      assert s[k..] == valueOfA[k..] + rest == Token(b);
    }
    TokenIsWellFormed(a, rest);
  }

  lemma TokenIsWellFormed(name: string, rest: string)
    requires IsVarName(name) && forall i | 0 <= i < |rest| :: rest[i] != '$'
    ensures IsWellFormed(Token(name) + rest)
  {
    var s := Token(name) + rest;
    assert s[|name| + 2] == '}' && s[2..|name| + 2] == name;
    assert TokenAt(s, 0);
    assert forall i | 1 <= i < |s| :: s[i] != '$';
  }

  lemma {:induction false} NoTokenWithoutDollar(s: string, name: string, value: string)
    requires forall i | 0 <= i < |s| :: s[i] != '$'
    ensures ReplaceAll(s, Token(name), value) == s
  {
    if s != "" {
      NoTokenWithoutDollar(s[1..], name, value);
      assert Token(name)[0] == '$';
    }
  }

  /** On the witness the two orders differ. */
  lemma OrdersDiffer(a: string, b: string, valueOfA: string, valueOfB: string) returns (s: string)
    requires IsVarName(a) && IsVarName(b) && a != b && Completes(valueOfA, b) && valueOfB != Token(b)
    ensures IsWellFormed(s) && FirstThen(s, a, b, valueOfA, valueOfB) != FirstThen(s, b, a, valueOfB, valueOfA)
  {
    var rest := Witness(a, b, valueOfA);
    s := Token(a) + rest;
    ReplaceAllOnToken(a, a, rest, valueOfA);
    ReplaceAllOnToken(b, a, rest, valueOfB);
    NoTokenWithoutDollar(rest, a, valueOfA);
    NoTokenWithoutDollar(rest, b, valueOfB);
    hide ReplaceAll, Completes, OccursIn, IsWellFormed;
    ReplaceAllChangesExactly(valueOfA + rest, Token(b), valueOfB);
  }

  ghost predicate OrdersAgree(a: string, b: string, valueOfA: string, valueOfB: string) {
    forall s | IsWellFormed(s) :: FirstThen(s, a, b, valueOfA, valueOfB) == FirstThen(s, b, a, valueOfB, valueOfA)
  }

  /** For all names and values, plain or not: the two orders of replacing `a` and `b` agree on every
      well-formed text if and only if neither value can complete a token of the other name, or that
      name's value is its own token, so that replacing it does nothing. */
  lemma OrderMattersExactly(a: string, b: string, valueOfA: string, valueOfB: string)
    requires IsVarName(a) && IsVarName(b) && a != b
    ensures OrdersAgree(a, b, valueOfA, valueOfB) <==>
            && (valueOfB == Token(b) || !Completes(valueOfA, b))
            && (valueOfA == Token(a) || !Completes(valueOfB, a))
  {
    hide FirstThen, Completes, IsWellFormed;
    if valueOfB != Token(b) && Completes(valueOfA, b) {
      var s := OrdersDiffer(a, b, valueOfA, valueOfB);
    } else if valueOfA != Token(a) && Completes(valueOfB, a) {
      var s := OrdersDiffer(b, a, valueOfB, valueOfA);
    } else {
      forall s | IsWellFormed(s)
        ensures FirstThen(s, a, b, valueOfA, valueOfB) == FirstThen(s, b, a, valueOfB, valueOfA)
      {
        Agree(s, a, b, valueOfA, valueOfB);
      }
    }
  }

  lemma Agree(s: string, a: string, b: string, valueOfA: string, valueOfB: string)
    requires IsVarName(a) && IsVarName(b) && a != b && IsWellFormed(s)
    requires (valueOfB == Token(b) || !Completes(valueOfA, b)) && (valueOfA == Token(a) || !Completes(valueOfB, a))
    ensures FirstThen(s, a, b, valueOfA, valueOfB) == FirstThen(s, b, a, valueOfB, valueOfA)
  {
    hide ReplaceAll, Completes, IsWellFormed, Render, Subst;
    var values := map[a := valueOfA, b := valueOfB];
    HarmlessIsAtOnce(s, values, [a, b]);
    HarmlessIsAtOnce(s, values, [b, a]);
    assert Among(values, [a, b]) == Among(values, [b, a]);
    EachOfTwo(s, values, a, b);
    EachOfTwo(s, values, b, a);
  }

  lemma EachOfTwo(s: string, values: map<string, string>, a: string, b: string)
    requires a in values && b in values
    ensures ReplaceEach(s, values, [a, b]) == FirstThen(s, a, b, values[a], values[b])
  {
    hide ReplaceAll;
    assert [a, b][..1] == [a] && [a][..0] == [];
    assert ReplaceEach(s, values, [a]) == ReplaceAll(s, Token(a), values[a]);
  }

  // What is left unresolved

  function TokenNames(segments: seq<Segment>): seq<string> {
    if segments == [] then []
    else
      (if segments[0].Var? && IsName(segments[0].name) then [Token(segments[0].name)] else [])
      + TokenNames(segments[1..])
  }

  lemma {:induction false} FindAllSkipsPlain(text: string, rest: string)
    requires IsPlain(text)
    ensures FindAll(text + rest) == FindAll(rest)
  {
    if text == "" {
      assert text + rest == rest;
    } else {
      FindAllSkipsPlain(text[1..], rest);
      assert (text + rest)[1..] == text[1..] + rest;
      assert MatchLength(text + rest) == 0;
    }
  }

  lemma FindAllOnToken(name: string, rest: string)
    requires IsVarName(name)
    ensures FindAll(Token(name) + rest) == (if IsName(name) then [Token(name)] else []) + FindAll(rest)
  {
    var s := Token(name) + rest;
    var n := MatchLength(s);
    if n > 0 {
      assert Token(s[2..n - 1]) <= s;
      assert IsVarName(s[2..n - 1]);
      DifferentTokensDoNotMatch(s[2..n - 1], name, rest);
      assert n == |Token(name)| && s[n..] == rest && s[..n] == Token(name);
    } else {
      if IsName(name) {
        MatchLengthOfToken(name, rest);
      }
      var tail := "{" + name + "}";
      assert s[1..] == tail + rest;
      FindAllSkipsPlain(tail, rest);
    }
  }

  lemma {:induction false} FindAllIsTokens(segments: seq<Segment>)
    requires IsValid(segments)
    ensures FindAll(Render(segments)) == TokenNames(segments)
  {
    if segments != [] {
      FindAllIsTokens(segments[1..]);
      match segments[0]
      case Text(t) => FindAllSkipsPlain(t, Render(segments[1..]));
      case Var(n) => FindAllOnToken(n, Render(segments[1..]));
    }
  }

  lemma {:induction false} TokenNamesEmpty(segments: seq<Segment>)
    ensures TokenNames(segments) == [] <==> forall g | g in segments && g.Var? :: !IsName(g.name)
  {
    if segments != [] {
      assert segments == [segments[0]] + segments[1..];
      TokenNamesEmpty(segments[1..]);
    }
  }

  /** The names a well-formed text asks for, as far as the check for leftovers can see them. */
  ghost function Wanted(s: string): set<string>
    requires IsWellFormed(s)
  {
    set g | g in Parse(s) && g.Var? && IsName(g.name) :: g.name
  }

  lemma WantedIsResolved(s: string, values: map<string, string>)
    requires IsWellFormed(s) && ArePlain(values)
    ensures Unique(FindAll(Render(Subst(Parse(s), values)))) == [] <==> Wanted(s) <= values.Keys
  {
    var segments := Parse(s);
    var result := Subst(segments, values);
    SubstIsValid(segments, values);
    FindAllIsTokens(result);
    TokenNamesEmpty(result);
    if TokenNames(result) == [] {
      forall name | name in Wanted(s) ensures name in values {
        var i :| 0 <= i < |segments| && segments[i] == Var(name);
        assert result[i] == SubstSegment(segments[i], values);
        assert result[i] in result;
      }
    } else {
      assert TokenNames(result)[0] in Unique(TokenNames(result));
    }
    if Wanted(s) <= values.Keys {
      forall g | g in result && g.Var? ensures !IsName(g.name) {
        var i :| 0 <= i < |result| && result[i] == g;
        assert segments[i] == g && segments[i] in segments;
      }
    }
  }

  /** `ReplaceTemplateVariablesInPodSpec`, `…InServiceSpec` and `…InIngressSpec` on the marshalled
      spec: the rendered text, unless something is left unresolved.  It succeeds exactly when every
      name the text asks for has a value. */
  method ReplaceTemplateVariablesInSpec(s: string, templates: seq<map<string, string>>)
    returns (ok: bool, result: string)
    ensures IsWellFormed(s) && AllPlain(templates) ==>
              && (ok <==> Wanted(s) <= Bind(templates).Keys)
              && result == if ok then Render(Subst(Parse(s), Bind(templates))) else s
  {
    var replaced := ReplaceTemplateVariablesInString(s, templates);
    var unresolved := GetUnresolvedTemplatesFromString(replaced);
    if IsWellFormed(s) && AllPlain(templates) {
      BindIsFirst(templates, "");
      WantedIsResolved(s, Bind(templates));
    }
    if |unresolved| > 0 {
      return false, s;
    }
    return true, replaced;
  }

  ghost predicate AllWellFormed(entries: map<string, string>) {
    forall k | k in entries :: IsWellFormed(entries[k])
  }

  ghost predicate EntryResolves(entries: map<string, string>, k: string, values: map<string, string>)
    requires k in entries && IsWellFormed(entries[k])
  {
    Wanted(entries[k]) <= values.Keys
  }

  /** The map version stops at the first entry with a leftover; entries already visited are replaced
      in place. */
  method ReplaceTemplateVariablesInStringMap(entries: map<string, string>, templates: seq<map<string, string>>)
    returns (ok: bool, result: map<string, string>)
    ensures result.Keys == entries.Keys
    ensures AllWellFormed(entries) && AllPlain(templates) ==>
              && (ok <==> forall k | k in entries :: EntryResolves(entries, k, Bind(templates)))
              && (ok ==> forall k | k in entries :: result[k] == Render(Subst(Parse(entries[k]), Bind(templates))))
  {
    ghost var good := AllWellFormed(entries) && AllPlain(templates);
    result := entries;
    var keys := entries.Keys;
    while keys != {}
      invariant keys <= entries.Keys && result.Keys == entries.Keys
      invariant forall k | k in keys :: result[k] == entries[k]
      invariant good ==> forall k | k in entries.Keys - keys ::
                  EntryResolves(entries, k, Bind(templates))
                      && result[k] == Render(Subst(Parse(entries[k]), Bind(templates)))
    {
      var k :| k in keys;
      var replaced := ReplaceTemplateVariablesInString(result[k], templates);
      var unresolved := GetUnresolvedTemplatesFromString(replaced);
      if good {
        BindIsFirst(templates, "");
        WantedIsResolved(entries[k], Bind(templates));
        assert EntryResolves(entries, k, Bind(templates)) <==> unresolved == [];
      }
      result := result[k := replaced];
      if |unresolved| > 0 {
        return false, result;
      }
      keys := keys - {k};
    }
    ok := true;
  }
}
