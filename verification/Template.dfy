/** Placeholders in templates: the resolver and the static key scanner. */
module Template {
  import opened Wrappers
  import opened Env
  import opened EnvCheck

  datatype EnvError = MissingRequired(key: string)

  // ── What the resolver does ──────────────────────────────────────

  /** The first place at which `a` is followed by `b`. */
  function FindPair(s: string, a: char, b: char): (r: Option<nat>)
    ensures r.Some? ==> r.value + 1 < |s| && s[r.value] == a && s[r.value + 1] == b
    ensures forall j :: 0 <= j < (if r.Some? then r.value else |s| - 1) ==> !(s[j] == a && s[j + 1] == b)
  {
    if |s| < 2 then None
    else if s[0] == a && s[1] == b then Some(0)
    else
      match FindPair(s[1..], a, b)
      case None => None
      case Some(k) => Some(k + 1)
  }

  function ResolveSpecText(env: Env, spec: string): Result<string, EnvError> {
    match FindPair(spec, ':', '-')
    case Some(idx) =>
      var v := GetSpec(env, spec[..idx]);
      Ok(if v.Some? then v.value else spec[idx + 2..])
    case None =>
      match FindPair(spec, ':', '?')
      case Some(idx) =>
        var v := GetSpec(env, spec[..idx]);
        if v.Some? then Ok(v.value) else Err(MissingRequired(spec[..idx]))
      case None =>
        var v := GetSpec(env, spec);
        Ok(if v.Some? then v.value else "")
  }

  /** The brace that closes the current one, counting nested braces. */
  function Closing(s: string, depth: nat): (r: Option<nat>)
    requires depth > 0
    ensures r.Some? ==> r.value < |s|
  {
    if s == "" then None
    else if s[0] == '}' && depth == 1 then Some(0)
    else
      var d := if s[0] == '{' then depth + 1 else if s[0] == '}' then depth - 1 else depth;
      match Closing(s[1..], d)
      case None => None
      case Some(k) => Some(k + 1)
  }

  /** How deep the text is in braces behind its first `k` characters. */
  function DepthAt(s: string, depth: int, k: nat): int
    requires k <= |s|
  {
    if k == 0 then depth
    else DepthAt(s, depth, k - 1) + if s[k - 1] == '{' then 1 else if s[k - 1] == '}' then -1 else 0
  }

  lemma {:induction false} DepthFrom(s: string, depth: int, k: nat)
    requires 0 < k <= |s|
    ensures DepthAt(s, depth, k) == DepthAt(s[1..], depth + (if s[0] == '{' then 1 else if s[0] == '}' then -1 else 0), k - 1)
  {
    if k > 1 {
      DepthFrom(s, depth, k - 1);
      assert s[1..][k - 2] == s[k - 1];
    }
  }

  /** The closing brace is the first character behind which all braces are closed, with the one before it. */
  lemma {:induction false} ClosingBalances(s: string, depth: nat)
    requires depth > 0
    ensures match Closing(s, depth)
            case Some(k) => DepthAt(s, depth, k + 1) == 0 && forall j: nat :: j <= k ==> DepthAt(s, depth, j) > 0
            case None => forall j: nat :: j <= |s| ==> DepthAt(s, depth, j) > 0
  {
    if s != "" {
      forall j: nat | 0 < j <= |s| {
        DepthFrom(s, depth, j);
      }
      var d := if s[0] == '{' then depth + 1 else if s[0] == '}' then depth - 1 else depth;
      if d > 0 {
        ClosingBalances(s[1..], d);
      }
    }
  }

  function Drop(s: string, n: nat): string {
    if n <= |s| then s[n..] else ""
  }

  function Before(out: string, r: Result<string, EnvError>): Result<string, EnvError> {
    if r.Ok? then Ok(out + r.value) else r
  }

  function StartsWith2(s: string, a: char, b: char): bool {
    |s| >= 2 && s[0] == a && s[1] == b
  }

  /** `$${` stands for `${`; `${spec}` and `{{spec}}` for a value; anything else for itself.
      A double placeholder ends two characters after its first closing brace begins, whatever
      the second character is. */
  function Resolved(env: Env, s: string): Result<string, EnvError>
    decreases |s|
  {
    if s == "" then Ok("")
    else if |s| > 2 && StartsWith2(s, '$', '$') && s[2] == '{' then Before("$", Resolved(env, s[2..]))
    else if StartsWith2(s, '$', '{') then
      (match Closing(s[2..], 1)
       case Some(k) =>
         var v := ResolveSpecText(env, s[2..2 + k]);
         if v.Err? then v else Before(v.value, Resolved(env, s[3 + k..]))
       case None => Before([s[0]], Resolved(env, s[1..])))
    else if StartsWith2(s, '{', '{') then
      (match Closing(s[2..], 1)
       case Some(k) =>
         var v := ResolveSpecText(env, s[2..2 + k]);
         if v.Err? then v else Before(v.value, Resolved(env, Drop(s, 4 + k)))
       case None => Before([s[0]], Resolved(env, s[1..])))
    else Before([s[0]], Resolved(env, s[1..]))
  }

  /** A position in a suffix as a position in the whole. */
  function Shift(found: Option<nat>, offset: nat): Option<nat> {
    if found.Some? then Some(found.value + offset) else None
  }

  method FindClosing(s: string, start: nat) returns (r: Option<nat>)
    requires start <= |s|
    ensures r == Shift(Closing(s[start..], 1), start)
    ensures r.Some? ==> start <= r.value < |s|
  {
    var depth, i := 1, start;
    while i < |s|
      invariant start <= i <= |s| && depth > 0
      invariant Shift(Closing(s[i..], depth), i) == Shift(Closing(s[start..], 1), start)
    {
      assert s[i..][1..] == s[i + 1..];
      if s[i] == '{' {
        depth := depth + 1;
      } else if s[i] == '}' {
        depth := depth - 1;
        if depth == 0 {
          return Some(i);
        }
      }
      i := i + 1;
    }
    r := None;
  }

  lemma BeforeTwice(a: string, b: string, r: Result<string, EnvError>)
    ensures Before(a, Before(b, r)) == Before(a + b, r)
  {
    if r.Ok? {
      assert a + (b + r.value) == (a + b) + r.value;
    }
  }

  // One round of the loop, for each of its branches.

  predicate AtEscape(s: string, i: nat) {
    i + 2 < |s| && s[i] == '$' && s[i + 1] == '$' && s[i + 2] == '{'
  }

  predicate AtPlaceholder(s: string, i: nat) {
    i + 1 < |s| && (s[i] == '$' || s[i] == '{') && s[i + 1] == '{'
  }

  lemma EscapeRound(env: Env, s: string, i: nat)
    requires AtEscape(s, i)
    ensures Resolved(env, Drop(s, i)) == Before("$", Resolved(env, Drop(s, i + 2)))
  {
    assert s[i..][2..] == s[i + 2..];
  }

  lemma LiteralRound(env: Env, s: string, i: nat)
    requires i < |s| && !AtEscape(s, i) && (AtPlaceholder(s, i) ==> Closing(s[i + 2..], 1).None?)
    ensures Resolved(env, Drop(s, i)) == Before([s[i]], Resolved(env, Drop(s, i + 1)))
  {
    assert s[i..][1..] == s[i + 1..];
    if AtPlaceholder(s, i) {
      assert s[i..][2..] == s[i + 2..];
    }
  }

  lemma PlaceholderRound(env: Env, s: string, i: nat, k: nat)
    requires AtPlaceholder(s, i) && !AtEscape(s, i) && Closing(s[i + 2..], 1) == Some(k)
    ensures var v := ResolveSpecText(env, s[i + 2..i + 2 + k]);
      Resolved(env, Drop(s, i)) ==
      if v.Err? then v else Before(v.value, Resolved(env, Drop(s, i + k + if s[i] == '{' then 4 else 3)))
  {
    hide Resolved, ResolveSpecText, Closing, Before, Drop;
    DropDrop(s, i, 2);
    var rest := Drop(s, i);
    assert rest[2..2 + k] == s[i + 2..i + 2 + k];
    if s[i] == '{' {
      ResolvedDouble(env, rest, k);
      DropDrop(s, i, 4 + k);
    } else {
      ResolvedDollar(env, rest, k);
      DropDrop(s, i, 3 + k);
    }
  }

  lemma DropDrop(s: string, i: nat, n: nat)
    requires i <= |s|
    ensures Drop(s, i) == s[i..] && Drop(Drop(s, i), n) == Drop(s, i + n)
    ensures i + n <= |s| ==> Drop(s, i)[n..] == Drop(s, i + n) == s[i + n..]
  {
  }

  /** The branch of `${`. */
  lemma ResolvedDollar(env: Env, s: string, k: nat)
    requires StartsWith2(s, '$', '{') && Closing(s[2..], 1) == Some(k)
    ensures var v := ResolveSpecText(env, s[2..2 + k]);
      Resolved(env, s) == if v.Err? then v else Before(v.value, Resolved(env, s[3 + k..]))
  {
    hide ResolveSpecText, Closing, Before;
  }

  /** The branch of `{{`. */
  lemma ResolvedDouble(env: Env, s: string, k: nat)
    requires StartsWith2(s, '{', '{') && Closing(s[2..], 1) == Some(k)
    ensures var v := ResolveSpecText(env, s[2..2 + k]);
      Resolved(env, s) == if v.Err? then v else Before(v.value, Resolved(env, Drop(s, 4 + k)))
  {
    hide ResolveSpecText, Closing, Before, Drop;
  }

  lemma Advance(env: Env, s: string, i: nat, out: string, piece: string, next: nat)
    requires Before(out, Resolved(env, Drop(s, i))) == Resolved(env, s)
    requires Resolved(env, Drop(s, i)) == Before(piece, Resolved(env, Drop(s, next)))
    ensures Before(out + piece, Resolved(env, Drop(s, next))) == Resolved(env, s)
  {
    BeforeTwice(out, piece, Resolved(env, Drop(s, next)));
  }

  lemma FirstRound(env: Env, s: string)
    ensures Before("", Resolved(env, Drop(s, 0))) == Resolved(env, s)
  {
    assert s[0..] == s;
    assert Resolved(env, s).Ok? ==> "" + Resolved(env, s).value == Resolved(env, s).value;
  }

  lemma LastRound(env: Env, s: string, out: string, i: nat)
    requires i >= |s| && Before(out, Resolved(env, Drop(s, i))) == Resolved(env, s)
    ensures Resolved(env, s) == Ok(out)
  {
    assert Drop(s, i) == "" && out + "" == out;
  }

  lemma FailedRound(env: Env, s: string, i: nat, out: string)
    requires Before(out, Resolved(env, Drop(s, i))) == Resolved(env, s) && Resolved(env, Drop(s, i)).Err?
    ensures Resolved(env, s) == Resolved(env, Drop(s, i))
  {
  }

  method Resolve(env: Env, s: string) returns (r: Result<string, EnvError>)
    ensures r == Resolved(env, s)
  {
    hide Resolved, Before, ResolveSpecText, Closing, Drop;
    var out, i := "", 0;
    FirstRound(env, s);
    while i < |s|
      invariant 0 <= i && Before(out, Resolved(env, Drop(s, i))) == Resolved(env, s)
      decreases |s| - i
    {
      if AtEscape(s, i) {
        EscapeRound(env, s, i);
        Advance(env, s, i, out, "$", i + 2);
        out, i := out + "$", i + 2;
        continue;
      }
      if AtPlaceholder(s, i) {
        var end := FindClosing(s, i + 2);
        if end.Some? {
          var v := ResolveSpecText(env, s[i + 2..end.value]);
          PlaceholderRound(env, s, i, end.value - i - 2);
          if v.Err? {
            FailedRound(env, s, i, out);
            return v;
          }
          var next := if s[i] == '{' then end.value + 2 else end.value + 1;
          Advance(env, s, i, out, v.value, next);
          out, i := out + v.value, next;
          continue;
        }
      }
      LiteralRound(env, s, i);
      Advance(env, s, i, out, [s[i]], i + 1);
      out, i := out + [s[i]], i + 1;
    }
    LastRound(env, s, out, i);
    r := Ok(out);
  }

  // ── What the scanner does ───────────────────────────────────────

  predicate EndsWith2(s: string, a: char, b: char) {
    |s| >= 2 && s[|s| - 2] == a && s[|s| - 1] == b
  }

  function SpecDep(spec: string): EnvDep {
    if EndsWith2(spec, ':', '?') then EnvDep(spec[..|spec| - 2], false)
    else
      match FindPair(spec, ':', '-')
      case Some(idx) => EnvDep(spec[..idx], true)
      case None => EnvDep(spec, false)
  }

  function FindChar(s: string, c: char): (r: Option<nat>)
    ensures r.Some? ==> r.value < |s|
  {
    if s == "" then None
    else if s[0] == c then Some(0)
    else
      match FindChar(s[1..], c)
      case None => None
      case Some(k) => Some(k + 1)
  }

  function Extracted(s: string): seq<EnvDep>
    decreases |s|
  {
    if s == "" then []
    else if StartsWith2(s, '{', '{') then
      (match FindPair(s[2..], '}', '}')
       case Some(k) => [SpecDep(s[2..2 + k])] + Extracted(s[4 + k..])
       case None => Extracted(s[1..]))
    else if StartsWith2(s, '$', '{') then
      (match FindChar(s[2..], '}')
       case Some(k) => [SpecDep(s[2..2 + k])] + Extracted(s[3 + k..])
       case None => Extracted(s[1..]))
    else Extracted(s[1..])
  }

  function FindEnd(s: string, pair: bool): Option<nat> {
    if pair then FindPair(s, '}', '}') else FindChar(s, '}')
  }

  lemma FindEndNext(s: string, i: nat, pair: bool)
    requires i < |s|
    ensures Shift(FindEnd(s[i..], pair), i) ==
            if s[i] == '}' && (!pair || (i + 1 < |s| && s[i + 1] == '}')) then Some(i)
            else Shift(FindEnd(s[i + 1..], pair), i + 1)
  {
    assert s[i..][1..] == s[i + 1..];
  }

  method FindSeq(s: string, start: nat, pair: bool) returns (r: Option<nat>)
    requires start <= |s|
    ensures r == Shift(FindEnd(s[start..], pair), start)
    ensures r.Some? ==> start <= r.value < |s| && (pair ==> r.value + 1 < |s|)
  {
    var i := start;
    while i < |s|
      invariant start <= i <= |s|
      invariant Shift(FindEnd(s[i..], pair), i) == Shift(FindEnd(s[start..], pair), start)
    {
      FindEndNext(s, i, pair);
      if s[i] == '}' && (!pair || (i + 1 < |s| && s[i + 1] == '}')) {
        return Some(i);
      }
      i := i + 1;
    }
    r := None;
  }

  lemma SkipRound(s: string, i: nat)
    requires i < |s| && (AtPlaceholder(s, i) ==> FindEnd(s[i + 2..], s[i] == '{').None?)
    ensures Extracted(s[i..]) == Extracted(s[i + 1..])
  {
    hide SpecDep;
    assert s[i..][1..] == s[i + 1..];
    if AtPlaceholder(s, i) {
      assert s[i..][2..] == s[i + 2..];
    }
  }

  lemma KeyRound(s: string, i: nat, k: nat)
    requires AtPlaceholder(s, i) && FindEnd(s[i + 2..], s[i] == '{') == Some(k)
    ensures var next := i + k + if s[i] == '{' then 4 else 3;
      next <= |s| && Extracted(s[i..]) == [SpecDep(s[i + 2..i + 2 + k])] + Extracted(s[next..])
  {
    hide SpecDep, Extracted, FindEnd;
    var rest := s[i..];
    assert rest[2..] == s[i + 2..];
    ExtractedKey(rest, k);
    assert rest[2..2 + k] == s[i + 2..i + 2 + k];
    if s[i] == '{' {
      assert rest[4 + k..] == s[i + k + 4..];
    } else {
      assert rest[3 + k..] == s[i + k + 3..];
    }
  }

  lemma ExtractedKey(s: string, k: nat)
    requires AtPlaceholder(s, 0) && FindEnd(s[2..], s[0] == '{') == Some(k)
    ensures var next := k + if s[0] == '{' then 4 else 3;
      next <= |s| && Extracted(s) == [SpecDep(s[2..2 + k])] + Extracted(s[next..])
  {
    hide SpecDep, Extracted, FindPair, FindChar;
    if s[0] == '{' {
      ExtractedDouble(s, k);
    } else {
      ExtractedDollar(s, k);
    }
  }

  lemma ExtractedDouble(s: string, k: nat)
    requires StartsWith2(s, '{', '{') && FindPair(s[2..], '}', '}') == Some(k)
    ensures Extracted(s) == [SpecDep(s[2..2 + k])] + Extracted(s[4 + k..])
  {
    hide SpecDep, FindPair, FindChar;
  }

  lemma ExtractedDollar(s: string, k: nat)
    requires StartsWith2(s, '$', '{') && FindChar(s[2..], '}') == Some(k)
    ensures Extracted(s) == [SpecDep(s[2..2 + k])] + Extracted(s[3 + k..])
  {
    hide SpecDep, FindPair, FindChar;
  }

  method ExtractTemplateKeys(s: string) returns (deps: seq<EnvDep>)
    ensures deps == Extracted(s)
  {
    hide Extracted, SpecDep, FindEnd;
    deps := [];
    var i := 0;
    assert s[0..] == s && [] + Extracted(s) == Extracted(s);
    while i < |s|
      invariant 0 <= i <= |s| && deps + Extracted(s[i..]) == Extracted(s)
      decreases |s| - i
    {
      var double := s[i] == '{' && i + 1 < |s| && s[i + 1] == '{';
      var dollar := s[i] == '$' && i + 1 < |s| && s[i + 1] == '{';
      if !(double || dollar) {
        SkipRound(s, i);
        i := i + 1;
        continue;
      }
      var close := FindSeq(s, i + 2, double);
      if close.None? {
        SkipRound(s, i);
        i := i + 1;
        continue;
      }
      var end := close.value;
      KeyRound(s, i, end - i - 2);
      var dep := SpecDep(s[i + 2..end]);
      deps, i := deps + [dep], if double then end + 2 else end + 1;
    }
    ExtractedEmpty();
    assert s[i..] == "" && deps + [] == deps;
  }

  lemma ExtractedEmpty()
    ensures Extracted("") == []
  {
  }

  // ── Text that is none ───────────────────────────────────────────

  ghost predicate HasEscape(s: string) {
    exists i :: 0 <= i < |s| - 2 && s[i] == '$' && s[i + 1] == '$' && s[i + 2] == '{'
  }

  /** Without a closing brace, and without an escape, nothing is a placeholder: the text stands for itself, and
      the scanner finds no key in it. */
  lemma {:induction false} UnclosedIsText(env: Env, s: string)
    requires (forall i :: 0 <= i < |s| ==> s[i] != '}') && !HasEscape(s)
    ensures Resolved(env, s) == Ok(s) && Extracted(s) == []
    decreases |s|
  {
    if s != "" {
      var rest := s[1..];
      EscapeLater(s);
      UnclosedIsText(env, rest);
      assert s == [s[0]] + rest;
      if |s| > 1 {
        NeverCloses(s[2..], 1);
      }
    }
  }

  lemma EscapeLater(s: string)
    requires s != ""
    ensures HasEscape(s[1..]) ==> HasEscape(s)
  {
    var rest := s[1..];
    if i :| 0 <= i < |rest| - 2 && rest[i] == '$' && rest[i + 1] == '$' && rest[i + 2] == '{' {
      assert s[i + 1] == '$' && s[i + 2] == '$' && s[i + 3] == '{';
    }
  }

  lemma {:induction false} NeverCloses(s: string, depth: nat)
    requires depth > 0 && forall i :: 0 <= i < |s| ==> s[i] != '}'
    ensures Closing(s, depth) == None && FindChar(s, '}') == None && FindPair(s, '}', '}') == None
  {
    if s != "" {
      NeverCloses(s[1..], if s[0] == '{' then depth + 1 else depth);
    }
  }

  // ── Templates built from segments ───────────────────────────────

  datatype Spec = Plain(key: string) | Default(key: string, default: string) | Required(key: string)

  datatype Segment = Text(text: string) | Dollar(spec: Spec) | Double(spec: Spec)

  predicate Lacks(s: string, c: char) {
    forall i :: 0 <= i < |s| ==> s[i] != c
  }

  predicate Braceless(s: string) {
    Lacks(s, '{') && Lacks(s, '}')
  }

  /** Keys have no braces and no colon; a default has no braces and does not end in `:?`. */
  predicate CleanSpec(p: Spec) {
    Braceless(p.key) && Lacks(p.key, ':')
    && (p.Default? ==> Braceless(p.default) && !EndsWith2(p.default, ':', '?'))
  }

  predicate CleanSegment(g: Segment) {
    match g
    case Text(t) => Lacks(t, '$') && Lacks(t, '{')
    case Dollar(p) => CleanSpec(p)
    case Double(p) => CleanSpec(p)
  }

  predicate Clean(gs: seq<Segment>) {
    forall i :: 0 <= i < |gs| ==> CleanSegment(gs[i])
  }

  function SpecText(p: Spec): string {
    match p
    case Plain(k) => k
    case Default(k, d) => k + ":-" + d
    case Required(k) => k + ":?"
  }

  function SegmentText(g: Segment): string {
    match g
    case Text(t) => t
    case Dollar(p) => "${" + SpecText(p) + "}"
    case Double(p) => "{{" + SpecText(p) + "}}"
  }

  function Render(gs: seq<Segment>): string {
    if gs == [] then "" else SegmentText(gs[0]) + Render(gs[1..])
  }

  function SpecValue(env: Env, p: Spec): Result<string, EnvError> {
    var v := GetSpec(env, p.key);
    if v.Some? then Ok(v.value)
    else
      match p
      case Plain(_) => Ok("")
      case Default(_, d) => Ok(d)
      case Required(k) => Err(MissingRequired(k))
  }

  /** What a placeholder stands for: the value that the environment has; without one nothing, the default, or an
      error for a key that is required. */
  lemma SpecGives(env: Env, p: Spec)
    ensures forall v :: Answered(env, p.key, v) ==> SpecValue(env, p) == Ok(v)
    ensures (forall v :: !Answered(env, p.key, v)) ==>
      SpecValue(env, p) ==
        if p.Default? then Ok(p.default) else if p.Required? then Err(MissingRequired(p.key)) else Ok("")
  {
    hide Answered;
    NoneAnswers(env, p.key);
    forall v | Answered(env, p.key, v)
      ensures GetSpec(env, p.key) == Some(v)
    {
      GetIff(env, p.key, v);
    }
  }

  /** The values of the segments in order, up to the first that is required and missing. */
  function Value(env: Env, gs: seq<Segment>): Result<string, EnvError> {
    if gs == [] then Ok("")
    else
      var v := if gs[0].Text? then Ok(gs[0].text) else SpecValue(env, gs[0].spec);
      if v.Err? then v else Before(v.value, Value(env, gs[1..]))
  }

  function Deps(gs: seq<Segment>): seq<EnvDep> {
    if gs == [] then []
    else if gs[0].Text? then Deps(gs[1..])
    else [EnvDep(gs[0].spec.key, gs[0].spec.Default?)] + Deps(gs[1..])
  }

  // ── Reading the segments back ───────────────────────────────────

  lemma {:induction false} NoPairHere(a: string, b: string, x: char, y: char)
    requires Lacks(a, x) && b != "" && b[0] == x && |b| >= 2 && b[1] == y
    ensures FindPair(a + b, x, y) == Some(|a|)
  {
    if a != "" {
      assert (a + b)[1..] == a[1..] + b;
      NoPairHere(a[1..], b, x, y);
    } else {
      assert a + b == b;
    }
  }

  lemma {:induction false} NoPairAtAll(s: string, x: char, y: char)
    requires Lacks(s, x)
    ensures FindPair(s, x, y) == None
  {
    if s != "" {
      NoPairAtAll(s[1..], x, y);
    }
  }

  /** Of the two marks only the one that the segment has is found, and at the end of the key. */
  lemma SpecMarks(p: Spec)
    requires CleanSpec(p)
    ensures var t := SpecText(p);
      match p
      case Plain(k) => FindPair(t, ':', '-').None? && FindPair(t, ':', '?').None? && !EndsWith2(t, ':', '?')
      case Default(k, d) => FindPair(t, ':', '-') == Some(|k|) && !EndsWith2(t, ':', '?')
      case Required(k) => FindPair(t, ':', '-').None? && FindPair(t, ':', '?') == Some(|k|) && EndsWith2(t, ':', '?')
  {
    match p
    case Plain(k) =>
      NoPairAtAll(k, ':', '-');
      NoPairAtAll(k, ':', '?');
    case Default(k, d) =>
      assert k + ":-" + d == k + (":-" + d);
      NoPairHere(k, ":-" + d, ':', '-');
    case Required(k) =>
      NoPairHere(k, ":?", ':', '?');
      RequiredHasNoDash(k);
  }

  lemma RequiredHasNoDash(k: string)
    requires Lacks(k, ':')
    ensures FindPair(k + ":?", ':', '-').None?
  {
    var t := k + ":?";
    assert forall j :: 0 <= j < |k| ==> t[j] == k[j];
  }

  lemma SpecReadBack(env: Env, p: Spec)
    requires CleanSpec(p)
    ensures ResolveSpecText(env, SpecText(p)) == SpecValue(env, p)
    ensures SpecDep(SpecText(p)) == EnvDep(p.key, p.Default?)
  {
    SpecMarks(p);
    var t := SpecText(p);
    assert t[..|p.key|] == p.key;
    if p.Default? {
      assert t[|p.key| + 2..] == p.default;
    }
  }

  lemma SpecBraceless(p: Spec)
    requires CleanSpec(p)
    ensures Braceless(SpecText(p))
  {
  }

  lemma {:induction false} ClosingAfter(a: string, b: string)
    requires Braceless(a)
    ensures Closing(a + "}" + b, 1) == Some(|a|)
  {
    var t := a + "}" + b;
    if a != "" {
      assert t[1..] == a[1..] + "}" + b;
      ClosingAfter(a[1..], b);
    }
  }

  lemma {:induction false} EndAfter(a: string, b: string, pair: bool)
    requires Lacks(a, '}')
    ensures FindEnd(a + (if pair then "}}" else "}") + b, pair) == Some(|a|)
  {
    var t := a + (if pair then "}}" else "}") + b;
    if a != "" {
      assert t[1..] == a[1..] + (if pair then "}}" else "}") + b;
      EndAfter(a[1..], b, pair);
    }
  }

  lemma {:induction false} TextReadBack(env: Env, t: string, rest: string)
    requires Lacks(t, '$') && Lacks(t, '{')
    ensures Resolved(env, t + rest) == Before(t, Resolved(env, rest))
    ensures Extracted(t + rest) == Extracted(rest)
  {
    if t == "" {
      assert t + rest == rest;
      assert Resolved(env, rest).Ok? ==> "" + Resolved(env, rest).value == Resolved(env, rest).value;
    } else {
      assert (t + rest)[1..] == t[1..] + rest;
      TextReadBack(env, t[1..], rest);
      BeforeTwice([t[0]], t[1..], Resolved(env, rest));
      assert [t[0]] + t[1..] == t;
    }
  }

  lemma DollarReadBack(env: Env, p: Spec, rest: string)
    requires CleanSpec(p)
    ensures var s := "${" + SpecText(p) + "}" + rest;
      && Resolved(env, s) == (var v := SpecValue(env, p); if v.Err? then v else Before(v.value, Resolved(env, rest)))
      && Extracted(s) == [EnvDep(p.key, p.Default?)] + Extracted(rest)
  {
    hide SpecDep, Resolved, ResolveSpecText, Closing, Before, SpecText, SpecValue, CleanSpec, FindEnd, Extracted;
    var t := SpecText(p);
    var s := "${" + t + "}" + rest;
    SpecBraceless(p);
    SpecReadBack(env, p);
    assert s[2..] == t + "}" + rest;
    ClosingAfter(t, rest);
    EndAfter(t, rest, false);
    assert s[2..2 + |t|] == t && s[3 + |t|..] == rest;
    ResolvedDollar(env, s, |t|);
    assert s[0..] == s;
    KeyRound(s, 0, |t|);
  }

  lemma DoubleReadBack(env: Env, p: Spec, rest: string)
    requires CleanSpec(p)
    ensures var s := "{{" + SpecText(p) + "}}" + rest;
      && Resolved(env, s) == (var v := SpecValue(env, p); if v.Err? then v else Before(v.value, Resolved(env, rest)))
      && Extracted(s) == [EnvDep(p.key, p.Default?)] + Extracted(rest)
  {
    hide SpecDep, Resolved, ResolveSpecText, Closing, Before, SpecText, SpecValue, CleanSpec, FindEnd, Extracted;
    var t := SpecText(p);
    var s := "{{" + t + "}}" + rest;
    SpecBraceless(p);
    SpecReadBack(env, p);
    assert s[2..] == t + "}" + ("}" + rest);
    ClosingAfter(t, "}" + rest);
    assert s[2..] == t + "}}" + rest;
    EndAfter(t, rest, true);
    assert s[2..2 + |t|] == t && s[4 + |t|..] == rest;
    ResolvedDouble(env, s, |t|);
    assert s[0..] == s;
    KeyRound(s, 0, |t|);
  }

  /** Both scanners read a rendered template back as its segments. */
  lemma {:induction false} ScannersReadSegments(env: Env, gs: seq<Segment>)
    requires Clean(gs)
    ensures Resolved(env, Render(gs)) == Value(env, gs)
    ensures Extracted(Render(gs)) == Deps(gs)
  {
    if gs != [] {
      ScannersReadSegments(env, gs[1..]);
      var rest := Render(gs[1..]);
      assert CleanSegment(gs[0]);
      match gs[0]
      case Text(t) => TextReadBack(env, t, rest);
      case Dollar(p) => DollarReadBack(env, p, rest);
      case Double(p) => DoubleReadBack(env, p, rest);
    }
  }

  /** If every key that the scanner calls mandatory is set, the template resolves, and to the
      values of its segments. */
  lemma SetKeysResolve(env: Env, gs: seq<Segment>)
    requires Clean(gs)
    requires forall d :: d in Extracted(Render(gs)) && !d.optional ==> GetSpec(env, d.key).Some?
    ensures Resolved(env, Render(gs)).Ok? && Resolved(env, Render(gs)) == Value(env, gs)
  {
    ScannersReadSegments(env, gs);
    SetKeysHaveValues(env, gs);
  }

  lemma {:induction false} SetKeysHaveValues(env: Env, gs: seq<Segment>)
    requires forall d :: d in Deps(gs) && !d.optional ==> GetSpec(env, d.key).Some?
    ensures Value(env, gs).Ok?
  {
    if gs != [] {
      if !gs[0].Text? {
        assert EnvDep(gs[0].spec.key, gs[0].spec.Default?) in Deps(gs);
      }
      SetKeysHaveValues(env, gs[1..]);
    }
  }

  // ── Where the two scanners part ─────────────────────────────────

  /** The key, and whether a missing value goes through, as the resolver takes a spec. */
  function ResolverDep(spec: string): EnvDep {
    match FindPair(spec, ':', '-')
    case Some(idx) => EnvDep(spec[..idx], true)
    case None =>
      match FindPair(spec, ':', '?')
      case Some(idx) => EnvDep(spec[..idx], false)
      case None => EnvDep(spec, false)
  }

  predicate MarkInPlace(spec: string) {
    if FindPair(spec, ':', '-').Some? then !EndsWith2(spec, ':', '?')
    else FindPair(spec, ':', '?').None? || FindPair(spec, ':', '?') == Some(|spec| - 2)
  }

  /** For one spec the scanner and the resolver agree on the key and on its being optional
      exactly if `:?` does not end a spec that has a default, and occurs nowhere but at the end. */
  lemma SpecsAgree(spec: string)
    ensures SpecDep(spec) == ResolverDep(spec) <==> MarkInPlace(spec)
  {
    var q := FindPair(spec, ':', '?');
    if q.Some? {
      assert |spec[..q.value]| == q.value;
    }
    assert EndsWith2(spec, ':', '?') ==> q.Some? && q.value <= |spec| - 2;
  }

  /** A placeholder: where it starts, where its text ends, and what it needs. */
  datatype Found = Found(start: nat, end: nat, dep: EnvDep)

  /** The placeholders of a template as the resolver takes them. */
  function ResolverFinds(s: string, at: nat): seq<Found>
    decreases |s|
  {
    if s == "" then []
    else if IsEscape(s) then ResolverFinds(s[2..], at + 2)
    else if StartsWith2(s, '$', '{') && Closing(s[2..], 1).Some? then
      var k := Closing(s[2..], 1).value;
      [Found(at, at + 2 + k, ResolverDep(s[2..2 + k]))] + ResolverFinds(s[3 + k..], at + 3 + k)
    else if StartsWith2(s, '{', '{') && Closing(s[2..], 1).Some? then
      var k := Closing(s[2..], 1).value;
      [Found(at, at + 2 + k, ResolverDep(s[2..2 + k]))] + ResolverFinds(Drop(s, 4 + k), at + 4 + k)
    else ResolverFinds(s[1..], at + 1)
  }

  /** The placeholders of a template as the scanner takes them. */
  function ScannerFinds(s: string, at: nat): seq<Found>
    decreases |s|
  {
    if s == "" then []
    else if StartsWith2(s, '{', '{') && FindPair(s[2..], '}', '}').Some? then
      var k := FindPair(s[2..], '}', '}').value;
      [Found(at, at + 2 + k, SpecDep(s[2..2 + k]))] + ScannerFinds(s[4 + k..], at + 4 + k)
    else if StartsWith2(s, '$', '{') && FindChar(s[2..], '}').Some? then
      var k := FindChar(s[2..], '}').value;
      [Found(at, at + 2 + k, SpecDep(s[2..2 + k]))] + ScannerFinds(s[3 + k..], at + 3 + k)
    else ScannerFinds(s[1..], at + 1)
  }

  predicate IsEscape(s: string) {
    |s| > 2 && StartsWith2(s, '$', '$') && s[2] == '{'
  }

  function DepsOf(fs: seq<Found>): seq<EnvDep> {
    if fs == [] then [] else [fs[0].dep] + DepsOf(fs[1..])
  }

  /** Both walk in step: nothing closes an escaped placeholder, every other one is closed at the same
      place or not at all, and the marks in its text are where both expect them. */
  predicate Aligned(s: string)
    decreases |s|
  {
    if s == "" then true
    else if IsEscape(s) then FindChar(s[3..], '}').None? && Aligned(s[2..])
    else if StartsWith2(s, '$', '{') then
      Closing(s[2..], 1) == FindChar(s[2..], '}') &&
      (match FindChar(s[2..], '}')
       case Some(k) => MarkInPlace(s[2..2 + k]) && Aligned(s[3 + k..])
       case None => Aligned(s[1..]))
    else if StartsWith2(s, '{', '{') then
      Closing(s[2..], 1) == FindPair(s[2..], '}', '}') &&
      (match FindPair(s[2..], '}', '}')
       case Some(k) => MarkInPlace(s[2..2 + k]) && Aligned(s[4 + k..])
       case None => Aligned(s[1..]))
    else Aligned(s[1..])
  }

  ghost predicate AllFrom(fs: seq<Found>, at: nat) {
    forall i :: 0 <= i < |fs| ==> fs[i].start >= at
  }

  // The branches of the three functions, one at a time.

  /** `${` or `{{`, and how much longer than its text a placeholder is. */
  predicate IsMark(s: string) {
    !IsEscape(s) && (StartsWith2(s, '$', '{') || StartsWith2(s, '{', '{'))
  }

  function Past(s: string): nat {
    if StartsWith2(s, '{', '{') then 4 else 3
  }

  function ScanEnd(s: string): Option<nat>
    requires IsMark(s)
  {
    FindEnd(s[2..], StartsWith2(s, '{', '{'))
  }

  lemma PlainBranch(s: string, at: nat)
    requires s != "" && !IsEscape(s) && !IsMark(s)
    ensures ResolverFinds(s, at) == ResolverFinds(s[1..], at + 1) && ScannerFinds(s, at) == ScannerFinds(s[1..], at + 1)
    ensures Aligned(s) <==> Aligned(s[1..])
  {
    hide ResolverDep, SpecDep, MarkInPlace, Closing, FindPair, FindChar;
  }

  lemma EscapeBranch(s: string, at: nat)
    requires IsEscape(s)
    ensures ResolverFinds(s, at) == ResolverFinds(s[2..], at + 2)
    ensures Aligned(s) <==> FindChar(s[3..], '}').None? && Aligned(s[2..])
  {
    hide ResolverDep, SpecDep, MarkInPlace, Closing, FindPair, FindChar;
  }

  lemma ResolverBranch(s: string, at: nat)
    requires IsMark(s)
    ensures ResolverFinds(s, at) ==
            match Closing(s[2..], 1)
            case None => ResolverFinds(s[1..], at + 1)
            case Some(k) => [Found(at, at + 2 + k, ResolverDep(s[2..2 + k]))] + ResolverFinds(Drop(s, Past(s) + k), at + Past(s) + k)
  {
    hide ResolverDep, SpecDep, MarkInPlace, Closing, FindPair, FindChar;
  }

  lemma ScannerBranch(s: string, at: nat)
    requires IsMark(s)
    ensures ScanEnd(s).Some? ==> Past(s) + ScanEnd(s).value <= |s|
    ensures ScannerFinds(s, at) ==
            match ScanEnd(s)
            case None => ScannerFinds(s[1..], at + 1)
            case Some(k) => [Found(at, at + 2 + k, SpecDep(s[2..2 + k]))] + ScannerFinds(s[Past(s) + k..], at + Past(s) + k)
  {
    hide ResolverDep, SpecDep, MarkInPlace, Closing, FindPair, FindChar;
  }

  lemma AlignedBranch(s: string)
    requires IsMark(s)
    ensures ScanEnd(s).Some? ==> Past(s) + ScanEnd(s).value <= |s|
    ensures Aligned(s) <==>
            Closing(s[2..], 1) == ScanEnd(s) &&
            match ScanEnd(s)
            case None => Aligned(s[1..])
            case Some(k) => MarkInPlace(s[2..2 + k]) && Aligned(s[Past(s) + k..])
  {
    hide ResolverDep, SpecDep, MarkInPlace, Closing, FindPair, FindChar;
  }

  lemma {:induction false} ResolverFindsLater(s: string, at: nat)
    ensures AllFrom(ResolverFinds(s, at), at)
    decreases |s|
  {
    hide ResolverFinds, ResolverDep, Closing;
    if s == "" {
      NoFinds(at);
    } else if IsEscape(s) {
      EscapeBranch(s, at);
      ResolverFindsLater(s[2..], at + 2);
    } else if IsMark(s) {
      ResolverBranch(s, at);
      ResolverFindsLater(s[1..], at + 1);
      if Closing(s[2..], 1).Some? {
        ResolverFindsLater(Drop(s, Past(s) + Closing(s[2..], 1).value), at + Past(s) + Closing(s[2..], 1).value);
      }
    } else {
      PlainBranch(s, at);
      ResolverFindsLater(s[1..], at + 1);
    }
  }

  lemma NoFinds(at: nat)
    ensures ResolverFinds("", at) == [] && ScannerFinds("", at) == []
  {
  }

  lemma {:induction false} ScannerFindsLater(s: string, at: nat)
    ensures AllFrom(ScannerFinds(s, at), at)
    decreases |s|
  {
    hide ScannerFinds, SpecDep, ScanEnd;
    if s == "" {
      NoFinds(at);
    } else if IsEscape(s) {
      ScannerSkips(s, at);
      ScannerFindsLater(s[1..], at + 1);
    } else if IsMark(s) {
      ScannerBranch(s, at);
      ScannerFindsLater(s[1..], at + 1);
      if ScanEnd(s).Some? {
        ScannerFindsLater(s[Past(s) + ScanEnd(s).value..], at + Past(s) + ScanEnd(s).value);
      }
    } else {
      PlainBranch(s, at);
      ScannerFindsLater(s[1..], at + 1);
    }
  }

  /** The first `$` of an escape is nothing to the scanner. */
  lemma ScannerSkips(s: string, at: nat)
    requires IsEscape(s)
    ensures ScannerFinds(s, at) == ScannerFinds(s[1..], at + 1)
  {
  }

  /** What comes first tells two lists of placeholders apart. */
  lemma FirstApart(f: Found, fs: seq<Found>, g: Found, gs: seq<Found>, at: nat)
    ensures [f] + fs == [g] + gs <==> f == g && fs == gs
    ensures AllFrom(gs, at) && f.start < at ==> [f] + fs != gs && gs != [f] + fs
  {
    if [f] + fs == [g] + gs {
      assert ([f] + fs)[0] == f && ([f] + fs)[1..] == fs && ([g] + gs)[0] == g && ([g] + gs)[1..] == gs;
    }
    assert ([f] + fs)[0] == f;
  }

  /** For any template: scanner and resolver find the same placeholders with the same keys if and only
      if they walk it in step. */
  lemma {:induction false} FindsAgree(s: string, at: nat)
    ensures ResolverFinds(s, at) == ScannerFinds(s, at) <==> Aligned(s)
    decreases |s|
  {
    hide ResolverFinds, ScannerFinds, Aligned, ResolverDep, SpecDep, Closing, FindPair, FindChar, AllFrom;
    if s == "" {
      NoFinds(at);
      AlignedEmpty();
    } else if IsEscape(s) {
      FindsAgree(s[2..], at + 2);
      EscapeBranch(s, at);
      ResolverFindsLater(s[2..], at + 2);
      EscapeScan(s, at);
      if FindChar(s[3..], '}').Some? {
        var k := FindChar(s[3..], '}').value;
        var f := Found(at + 1, at + 3 + k, SpecDep(s[3..3 + k]));
        FirstApart(f, ScannerFinds(s[4 + k..], at + 4 + k), f, ResolverFinds(s[2..], at + 2), at + 2);
      }
    } else if IsMark(s) {
      FindsAgree(s[1..], at + 1);
      OneAgrees(s, at);
    } else {
      PlainBranch(s, at);
      FindsAgree(s[1..], at + 1);
    }
  }

  lemma AlignedEmpty()
    ensures Aligned("")
  {
  }

  lemma EscapeScan(s: string, at: nat)
    requires IsEscape(s)
    ensures ScannerFinds(s, at) ==
            match FindChar(s[3..], '}')
            case Some(k) => [Found(at + 1, at + 3 + k, SpecDep(s[3..3 + k]))] + ScannerFinds(s[4 + k..], at + 4 + k)
            case None => ScannerFinds(s[2..], at + 2)
  {
    hide SpecDep, FindPair, FindChar, ScannerFinds;
    var r := s[1..];
    assert r[2..] == s[3..] && r[1..] == s[2..];
    ScannerSkips(s, at);
    ScannerBranch(r, at + 1);
    if FindChar(s[3..], '}').Some? {
      var k := FindChar(s[3..], '}').value;
      assert r[2..2 + k] == s[3..3 + k] && r[3 + k..] == s[4 + k..];
    }
  }

  /** The step at a placeholder. */
  lemma {:induction false} OneAgrees(s: string, at: nat)
    requires IsMark(s) && (ResolverFinds(s[1..], at + 1) == ScannerFinds(s[1..], at + 1) <==> Aligned(s[1..]))
    ensures ResolverFinds(s, at) == ScannerFinds(s, at) <==> Aligned(s)
    decreases |s|, 0
  {
    hide ResolverFinds, ScannerFinds, Aligned, ResolverDep, SpecDep, MarkInPlace, Closing, ScanEnd, AllFrom;
    ResolverFindsLater(s[1..], at + 1);
    ScannerFindsLater(s[1..], at + 1);
    ResolverBranch(s, at);
    ScannerBranch(s, at);
    AlignedBranch(s);
    var closed, found := Closing(s[2..], 1), ScanEnd(s);
    var rs, ss, past := ResolverFinds(s[1..], at + 1), ScannerFinds(s[1..], at + 1), Past(s);
    if closed.Some? {
      var k := closed.value;
      var f, fs := Found(at, at + 2 + k, ResolverDep(s[2..2 + k])), ResolverFinds(Drop(s, past + k), at + past + k);
      if found.Some? {
        var j := found.value;
        FirstApart(f, fs, Found(at, at + 2 + j, SpecDep(s[2..2 + j])), ScannerFinds(s[past + j..], at + past + j), at);
        SpecsAgree(s[2..2 + k]);
        if j == k {
          FindsAgree(s[past + k..], at + past + k);
        }
      } else {
        FirstApart(f, fs, f, ss, at + 1);
      }
    } else if found.Some? {
      var j := found.value;
      var g := Found(at, at + 2 + j, SpecDep(s[2..2 + j]));
      FirstApart(g, ScannerFinds(s[past + j..], at + past + j), g, rs, at + 1);
    }
  }

  lemma DepsNext(f: Found, fs: seq<Found>)
    ensures DepsOf([]) == [] && DepsOf([f] + fs) == [f.dep] + DepsOf(fs)
  {
  }

  lemma ExtractedOn(s: string)
    requires s != "" && (IsMark(s) ==> ScanEnd(s).None?)
    ensures Extracted(s) == Extracted(s[1..])
  {
    hide SpecDep, FindPair, FindChar;
  }

  lemma ExtractedMark(s: string, k: nat)
    requires IsMark(s) && ScanEnd(s) == Some(k)
    ensures Past(s) + k <= |s| && Extracted(s) == [SpecDep(s[2..2 + k])] + Extracted(s[Past(s) + k..])
  {
    hide *;
    MarkIsPlaceholder(s);
    ExtractedKey(s, k);
  }

  lemma MarkIsPlaceholder(s: string)
    requires IsMark(s)
    ensures AtPlaceholder(s, 0) && ScanEnd(s) == FindEnd(s[2..], s[0] == '{')
    ensures Past(s) == if s[0] == '{' then 4 else 3
  {
  }

  lemma {:induction false} ScannerFindsExtracted(s: string, at: nat)
    ensures DepsOf(ScannerFinds(s, at)) == Extracted(s)
    decreases |s|
  {
    hide ScannerFinds, Extracted, SpecDep, ScanEnd, DepsOf;
    if s == "" {
      NoFinds(at);
      ExtractedEmpty();
      DepsNext(Found(0, 0, EnvDep("", true)), []);
    } else if IsMark(s) && ScanEnd(s).Some? {
      var k := ScanEnd(s).value;
      ScannerBranch(s, at);
      ExtractedMark(s, k);
      ScannerFindsExtracted(s[Past(s) + k..], at + Past(s) + k);
      DepsNext(Found(at, at + 2 + k, SpecDep(s[2..2 + k])), ScannerFinds(s[Past(s) + k..], at + Past(s) + k));
    } else {
      ExtractedOn(s);
      ScannerFindsExtracted(s[1..], at + 1);
      if IsEscape(s) {
        ScannerSkips(s, at);
      } else if IsMark(s) {
        ScannerBranch(s, at);
      } else {
        PlainBranch(s, at);
      }
    }
  }

  lemma SpecResolves(env: Env, spec: string)
    requires !ResolverDep(spec).optional ==> GetSpec(env, ResolverDep(spec).key).Some?
    ensures ResolveSpecText(env, spec).Ok?
  {
  }

  lemma MarkResolves(env: Env, s: string)
    requires IsMark(s)
    ensures Resolved(env, s) ==
            match Closing(s[2..], 1)
            case None => Before([s[0]], Resolved(env, s[1..]))
            case Some(k) =>
              (var v := ResolveSpecText(env, s[2..2 + k]);
               if v.Err? then v else Before(v.value, Resolved(env, Drop(s, Past(s) + k))))
  {
    hide ResolveSpecText, Closing, Before;
  }

  lemma PlainResolves(env: Env, s: string)
    requires s != "" && !IsMark(s)
    ensures Resolved(env, s) == if IsEscape(s) then Before("$", Resolved(env, s[2..])) else Before([s[0]], Resolved(env, s[1..]))
  {
    hide ResolveSpecText, Closing, Before;
  }

  /** For any template: it resolves if every key that the resolver takes for mandatory is set. */
  lemma {:induction false} FoundKeysResolve(env: Env, s: string, at: nat)
    requires forall f :: f in ResolverFinds(s, at) && !f.dep.optional ==> GetSpec(env, f.dep.key).Some?
    ensures Resolved(env, s).Ok?
    decreases |s|
  {
    hide Resolved, ResolverFinds, ResolverDep, ResolveSpecText, Closing, GetSpec, Drop, IsMark, IsEscape, Past;
    if s == "" {
      NothingResolves(env);
    } else if IsEscape(s) {
      EscapeLength(s);
      EscapeBranch(s, at);
      PlainResolves(env, s);
      FoundKeysResolve(env, s[2..], at + 2);
    } else if IsMark(s) {
      ResolverBranch(s, at);
      MarkResolves(env, s);
      MarkLength(s, 0);
      if Closing(s[2..], 1).Some? {
        var k := Closing(s[2..], 1).value;
        MarkLength(s, k);
        assert Found(at, at + 2 + k, ResolverDep(s[2..2 + k])) in ResolverFinds(s, at);
        SpecResolves(env, s[2..2 + k]);
        FoundKeysResolve(env, Drop(s, Past(s) + k), at + Past(s) + k);
      } else {
        FoundKeysResolve(env, s[1..], at + 1);
      }
    } else {
      PlainBranch(s, at);
      PlainResolves(env, s);
      FoundKeysResolve(env, s[1..], at + 1);
    }
  }

  lemma EscapeLength(s: string)
    requires IsEscape(s)
    ensures |s| > 2 && !IsMark(s)
  {
  }

  lemma MarkLength(s: string, k: nat)
    requires IsMark(s)
    ensures |s| >= 2 && |Drop(s, Past(s) + k)| < |s|
  {
  }

  lemma NothingResolves(env: Env)
    ensures Resolved(env, "") == Ok("")
  {
  }

  /** So the scan is to be relied on for every template that both walk in step. */
  lemma AlignedKeysResolve(env: Env, t: string)
    requires Aligned(t) && forall d :: d in Extracted(t) && !d.optional ==> GetSpec(env, d.key).Some?
    ensures Resolved(env, t).Ok?
  {
    FindsAgree(t, 0);
    ScannerFindsExtracted(t, 0);
    forall f | f in ResolverFinds(t, 0) && !f.dep.optional
      ensures GetSpec(env, f.dep.key).Some?
    {
      FoundDep(ScannerFinds(t, 0), f);
    }
    FoundKeysResolve(env, t, 0);
  }

  lemma {:induction false} FoundDep(fs: seq<Found>, f: Found)
    requires f in fs
    ensures f.dep in DepsOf(fs)
  {
    if f != fs[0] {
      FoundDep(fs[1..], f);
    }
  }

  // ── When the scan is enough ─────────────────────────────────────

  /** The key without which a placeholder is an error. */
  function RequiredKey(spec: string): Option<string> {
    if FindPair(spec, ':', '-').Some? then None
    else
      match FindPair(spec, ':', '?')
      case Some(idx) => Some(spec[..idx])
      case None => None
  }

  lemma SpecResolvesIff(env: Env, spec: string)
    ensures ResolveSpecText(env, spec).Ok? <==> RequiredKey(spec).None? || GetSpec(env, RequiredKey(spec).value).Some?
  {
  }

  /** The keys of a template without any of which it is an error. */
  function Musts(s: string): set<string>
    decreases |s|
  {
    if s == "" then {}
    else if IsEscape(s) then Musts(s[2..])
    else if IsMark(s) && Closing(s[2..], 1).Some? then
      var k := Closing(s[2..], 1).value;
      (match RequiredKey(s[2..2 + k])
       case Some(key) => {key}
       case None => {}) + Musts(Drop(s, Past(s) + k))
    else Musts(s[1..])
  }

  /** For any template and any environment: it resolves if and only if each of these keys is set. */
  lemma {:induction false} ResolvesIff(env: Env, s: string)
    ensures Resolved(env, s).Ok? <==> forall k :: k in Musts(s) ==> GetSpec(env, k).Some?
    decreases |s|
  {
    hide Resolved, ResolveSpecText, RequiredKey, Closing, GetSpec;
    if s == "" {
      NothingResolves(env);
    } else if IsMark(s) {
      MarkResolves(env, s);
      if Closing(s[2..], 1).Some? {
        var k := Closing(s[2..], 1).value;
        SpecResolvesIff(env, s[2..2 + k]);
        ResolvesIff(env, Drop(s, Past(s) + k));
      } else {
        ResolvesIff(env, s[1..]);
      }
    } else {
      PlainResolves(env, s);
      ResolvesIff(env, if IsEscape(s) then s[2..] else s[1..]);
    }
  }

  /** The scan reports the key, under this or a like spelling, as mandatory. */
  ghost predicate Scanned(t: string, key: string) {
    exists d :: d in Extracted(t) && !d.optional && NormalizeKey(d.key) == NormalizeKey(key)
  }

  ghost predicate ScannedAreSet(env: Env, t: string) {
    forall d :: d in Extracted(t) && !d.optional ==> GetSpec(env, d.key).Some?
  }

  lemma SameNameSameValue(env: Env, a: string, b: string)
    requires NormalizeKey(a) == NormalizeKey(b)
    ensures GetSpec(env, a) == GetSpec(env, b)
  {
  }

  /** An environment in which exactly the keys that the scan reports as mandatory are set. */
  lemma OnlyScanned(t: string) returns (env: Env)
    ensures forall key :: GetSpec(env, key).Some? <==> Scanned(t, key)
  {
    var names := set d | d in Extracted(t) && !d.optional :: NormalizeKey(d.key);
    var provider: map<string, string> := map n | n in names :: "";
    env := Env([provider], []);
    forall key
      ensures GetSpec(env, key).Some? <==> Scanned(t, key)
    {
      assert GetSpec(env, key) == Lookup([provider], NormalizeKey(key));
      assert Lookup([provider], NormalizeKey(key)).Some? <==> NormalizeKey(key) in provider;
    }
  }

  /** To have all scanned keys set guarantees that the template resolves, in every environment, if and
      only if each key without which it is an error is among them. */
  lemma ScanGuarantees(t: string)
    ensures (forall env :: ScannedAreSet(env, t) ==> Resolved(env, t).Ok?) <==> forall k :: k in Musts(t) ==> Scanned(t, k)
  {
    hide Resolved, GetSpec, Extracted, Musts, NormalizeKey;
    if forall k :: k in Musts(t) ==> Scanned(t, k) {
      forall env | ScannedAreSet(env, t)
        ensures Resolved(env, t).Ok?
      {
        ResolvesIff(env, t);
        forall k | k in Musts(t)
          ensures GetSpec(env, k).Some?
        {
          var d :| d in Extracted(t) && !d.optional && NormalizeKey(d.key) == NormalizeKey(k);
          SameNameSameValue(env, d.key, k);
        }
      }
    } else {
      var env := OnlyScanned(t);
      ResolvesIff(env, t);
      assert ScannedAreSet(env, t) by {
        forall d | d in Extracted(t) && !d.optional
          ensures GetSpec(env, d.key).Some?
        {
          assert Scanned(t, d.key);
        }
      }
    }
  }

  /** An escaped placeholder is plain text to the resolver and a mandatory key to the scanner. */
  lemma EscapeIsScanned(env: Env, k: string)
    requires Braceless(k) && Lacks(k, '$') && Lacks(k, ':')
    ensures Resolved(env, "$${" + k + "}") == Ok("${" + k + "}")
    ensures Extracted("$${" + k + "}") == [EnvDep(k, false)]
  {
    var s := "$${" + k + "}";
    var t := "{" + k + "}";
    assert s[2..] == t;
    LoneBrace(env, k);
    assert "$" + t == "${" + k + "}";
    assert s[1..] == "${" + SpecText(Plain(k)) + "}" + "";
    DollarReadBack(env, Plain(k), "");
  }

  lemma LoneBrace(env: Env, k: string)
    requires Braceless(k) && Lacks(k, '$')
    ensures Resolved(env, "{" + k + "}") == Ok("{" + k + "}")
  {
    var t := "{" + k + "}";
    assert t[1..] == (k + "}") + "";
    TextReadBack(env, k + "}", "");
    assert Resolved(env, t[1..]) == Before(k + "}", Ok(""));
    assert (k + "}") + "" == t[1..] && ['{'] + t[1..] == t;
    assert !StartsWith2(t, '{', '{');
  }
}
