/** Environment lookup: ordered providers below a chain of module scopes. */
module Env {
  import opened Wrappers

  /** A provider is what its `get` answers; the first provider that answers wins. */
  datatype Env = Env(providers: seq<map<string, string>>, scopes: seq<string>)

  // ── Keys (ASCII) ────────────────────────────────────────────────

  predicate IsBlank(c: char) {
    c == ' ' || '\t' <= c <= '\r'
  }

  function TrimStart(s: string): string {
    if s != "" && IsBlank(s[0]) then TrimStart(s[1..]) else s
  }

  function TrimEnd(s: string): string {
    if s != "" && IsBlank(s[|s| - 1]) then TrimEnd(s[..|s| - 1]) else s
  }

  function NormalizeChar(c: char): char {
    if 'a' <= c <= 'z' then c - 'a' + 'A'
    else if c == '-' || c == '.' || c == ' ' then '_'
    else c
  }

  function NormalizeChars(s: string): (r: string)
    ensures |r| == |s| && forall i :: 0 <= i < |s| ==> r[i] == NormalizeChar(s[i])
  {
    if s == "" then "" else [NormalizeChar(s[0])] + NormalizeChars(s[1..])
  }

  function NormalizeKey(key: string): string {
    NormalizeChars(TrimEnd(TrimStart(key)))
  }

  lemma {:induction false} TrimStartNotBlank(s: string)
    ensures var r := TrimStart(s); |r| <= |s| && (r != "" ==> !IsBlank(r[0]))
  {
    if s != "" && IsBlank(s[0]) {
      TrimStartNotBlank(s[1..]);
    }
  }

  lemma {:induction false} TrimEndNotBlank(s: string)
    ensures var r := TrimEnd(s); |r| <= |s| && (r != "" ==> !IsBlank(r[|r| - 1]) && r[0] == s[0])
  {
    if s != "" && IsBlank(s[|s| - 1]) {
      TrimEndNotBlank(s[..|s| - 1]);
    }
  }

  /** A provider that normalizes a second time asks for the same key. */
  lemma NormalizeIdempotent(key: string)
    ensures NormalizeKey(NormalizeKey(key)) == NormalizeKey(key)
  {
    var t := TrimEnd(TrimStart(key));
    TrimStartNotBlank(key);
    TrimEndNotBlank(TrimStart(key));
    var r := NormalizeKey(key);
    assert r != "" ==> !IsBlank(r[0]) && !IsBlank(r[|r| - 1]);
    assert TrimEnd(TrimStart(r)) == r;
    assert forall c :: NormalizeChar(NormalizeChar(c)) == NormalizeChar(c);
  }

  // ── Lookup ──────────────────────────────────────────────────────

  function Lookup(providers: seq<map<string, string>>, key: string): Option<string> {
    if providers == [] then None
    else if key in providers[0] then Some(providers[0][key])
    else Lookup(providers[1..], key)
  }

  function JoinWith(parts: seq<string>): string {
    if parts == [] then ""
    else if |parts| == 1 then parts[0]
    else JoinWith(parts[..|parts| - 1]) + "_" + parts[|parts| - 1]
  }

  function JoinScopes(scopes: seq<string>, key: string): string {
    if scopes == [] then key else JoinWith(scopes) + "_" + key
  }

  /** The innermost of the first `i` scope levels, the bare key included, that is set. */
  function Resolved(env: Env, key: string, i: nat): Option<string>
    requires i <= |env.scopes|
  {
    var v := Lookup(env.providers, JoinScopes(env.scopes[..i], key));
    if v.Some? || i == 0 then v else Resolved(env, key, i - 1)
  }

  function GetSpec(env: Env, key: string): Option<string> {
    Resolved(env, NormalizeKey(key), |env.scopes|)
  }

  method Get(env: Env, key: string) returns (r: Option<string>)
    ensures r == GetSpec(env, key)
    ensures forall v :: r == Some(v) <==> Answered(env, key, v)
  {
    hide Answered, NormalizeKey, JoinScopes, Lookup;
    forall v {
      GetIff(env, key, v);
    }
    var normalized := NormalizeKey(key);
    var i := |env.scopes|;
    while true
      invariant 0 <= i <= |env.scopes|
      invariant Resolved(env, normalized, i) == GetSpec(env, key)
      decreases i
    {
      r := Lookup(env.providers, JoinScopes(env.scopes[..i], normalized));
      if r.Some? || i == 0 {
        return;
      }
      i := i - 1;
    }
  }

  // ── What a lookup finds ─────────────────────────────────────────

  /** The key without blanks around it, in upper case, with `_` for `-`, `.` and blanks. */
  ghost predicate Normalizes(key: string, r: string) {
    exists i, j :: 0 <= i <= j <= |key| && IsTrimmed(key, i, j) && |r| == j - i &&
      forall k :: 0 <= k < |r| ==> IsUpper(key[i + k], r[k])
  }

  ghost predicate IsTrimmed(key: string, i: nat, j: nat)
    requires i <= j <= |key|
  {
    && (forall k :: 0 <= k < |key| && (k < i || j <= k) ==> key[k] == ' ' || '\t' <= key[k] <= '\r')
    && (i < j ==> key[i] != ' ' && !('\t' <= key[i] <= '\r') && key[j - 1] != ' ' && !('\t' <= key[j - 1] <= '\r'))
  }

  ghost predicate IsUpper(c: char, u: char) {
    if 'a' <= c <= 'z' then u as int == c as int - 32
    else if c in {'-', '.', ' '} then u == '_'
    else u == c
  }

  /** The names of the scope levels, the outermost first, and the key, with `_` in between. */
  function Joined(scopes: seq<string>, key: string): string {
    if scopes == [] then key else scopes[0] + "_" + Joined(scopes[1..], key)
  }

  ghost predicate KeyAt(env: Env, key: string, i: nat, k: string) {
    i <= |env.scopes| && exists r :: Normalizes(key, r) && k == Joined(env.scopes[..i], r)
  }

  /** Provider `p` has the value `v` at level `i`. */
  ghost predicate Holds(env: Env, i: nat, p: nat, key: string, v: string) {
    p < |env.providers| && exists k :: KeyAt(env, key, i, k) && k in env.providers[p] && env.providers[p][k] == v
  }

  ghost predicate Has(env: Env, i: nat, p: nat, key: string) {
    exists v :: Holds(env, i, p, key, v)
  }

  /** At level `i` provider `p` is the first to have a value, and no provider has one at an inner level. */
  ghost predicate Answers(env: Env, key: string, i: nat, p: nat, v: string) {
    && Holds(env, i, p, key, v)
    && (forall q: nat :: q < p ==> !Has(env, i, q, key))
    && (forall j: nat, q: nat :: i < j ==> !Has(env, j, q, key))
  }

  ghost predicate Answered(env: Env, key: string, v: string) {
    exists i: nat, p: nat :: Answers(env, key, i, p, v)
  }

  lemma {:induction false} JoinedIs(scopes: seq<string>, key: string)
    ensures JoinScopes(scopes, key) == Joined(scopes, key)
  {
    if |scopes| == 1 {
      assert scopes[1..] == [];
    } else if scopes != [] {
      JoinedIs(scopes[1..], key);
      FromHead(scopes);
    }
  }

  lemma {:induction false} FromHead(parts: seq<string>)
    requires |parts| > 1
    ensures JoinWith(parts) == parts[0] + "_" + JoinWith(parts[1..])
  {
    var front := parts[..|parts| - 1];
    if |parts| > 2 {
      FromHead(front);
      assert parts[1..][..|parts| - 2] == front[1..];
      assert JoinWith(parts[1..]) == JoinWith(front[1..]) + "_" + parts[|parts| - 1];
    }
  }

  lemma {:induction false} TrimStartIs(s: string) returns (i: nat)
    ensures i <= |s| && TrimStart(s) == s[i..] && forall k :: 0 <= k < i ==> IsBlank(s[k])
  {
    i := 0;
    if s != "" && IsBlank(s[0]) {
      i := TrimStartIs(s[1..]);
      i := i + 1;
      assert s[1..][i - 1..] == s[i..];
      assert forall k :: 1 <= k < i ==> s[k] == s[1..][k - 1];
    }
  }

  lemma {:induction false} TrimEndIs(s: string) returns (j: nat)
    ensures j <= |s| && TrimEnd(s) == s[..j] && forall k :: j <= k < |s| ==> IsBlank(s[k])
  {
    j := |s|;
    if s != "" && IsBlank(s[|s| - 1]) {
      j := TrimEndIs(s[..|s| - 1]);
      assert s[..|s| - 1][..j] == s[..j];
    }
  }

  lemma NormalizeIs(key: string)
    ensures Normalizes(key, NormalizeKey(key))
  {
    var i := TrimStartIs(key);
    var t := TrimStart(key);
    var j := TrimEndIs(t);
    TrimStartNotBlank(key);
    TrimEndNotBlank(t);
    assert TrimEnd(t) == key[i..i + j];
    forall k | 0 <= k < |key| && (k < i || i + j <= k)
      ensures IsBlank(key[k])
    {
      if i + j <= k {
        assert key[k] == t[k - i];
      }
    }
    assert IsTrimmed(key, i, i + j);
  }

  lemma OneNormalized(key: string, r: string, s: string)
    requires Normalizes(key, r) && Normalizes(key, s)
    ensures r == s
  {
    var i, j :| 0 <= i <= j <= |key| && IsTrimmed(key, i, j) && |r| == j - i && forall k :: 0 <= k < |r| ==> IsUpper(key[i + k], r[k]);
    var a, b :| 0 <= a <= b <= |key| && IsTrimmed(key, a, b) && |s| == b - a && forall k :: 0 <= k < |s| ==> IsUpper(key[a + k], s[k]);
    TrimmedOnce(key, i, j, a, b);
    forall k | 0 <= k < |r|
      ensures r[k] == s[k]
    {
      assert IsUpper(key[i + k], r[k]) && IsUpper(key[a + k], s[k]);
    }
  }

  lemma TrimmedOnce(key: string, i: nat, j: nat, a: nat, b: nat)
    requires i <= j <= |key| && IsTrimmed(key, i, j) && a <= b <= |key| && IsTrimmed(key, a, b)
    ensures j - i == b - a && (i < j ==> i == a)
  {
    if i < j {
      assert a <= i && j <= b;
      assert i <= a && b <= j;
    }
  }

  lemma KeyIs(env: Env, key: string, i: nat, k: string)
    requires i <= |env.scopes|
    ensures KeyAt(env, key, i, k) <==> k == JoinScopes(env.scopes[..i], NormalizeKey(key))
  {
    NormalizeIs(key);
    JoinedIs(env.scopes[..i], NormalizeKey(key));
    if KeyAt(env, key, i, k) {
      var r :| Normalizes(key, r) && k == Joined(env.scopes[..i], r);
      OneNormalized(key, r, NormalizeKey(key));
    }
  }

  ghost predicate FirstWith(providers: seq<map<string, string>>, k: string, p: nat, v: string) {
    p < |providers| && k in providers[p] && providers[p][k] == v && forall q :: 0 <= q < p ==> k !in providers[q]
  }

  lemma {:induction false} LookupFinds(providers: seq<map<string, string>>, k: string)
    ensures Lookup(providers, k).None? ==> forall q :: 0 <= q < |providers| ==> k !in providers[q]
    ensures Lookup(providers, k).Some? ==> exists p: nat :: FirstWith(providers, k, p, Lookup(providers, k).value)
  {
    if providers == [] {
    } else if k in providers[0] {
      assert FirstWith(providers, k, 0, providers[0][k]);
    } else {
      var rest := providers[1..];
      LookupFinds(rest, k);
      assert forall q :: 0 < q < |providers| ==> providers[q] == rest[q - 1];
      if Lookup(rest, k).Some? {
        var p: nat :| FirstWith(rest, k, p, Lookup(rest, k).value);
        assert FirstWith(providers, k, p + 1, Lookup(rest, k).value);
      }
    }
  }

  lemma HoldsIs(env: Env, i: nat, p: nat, key: string, v: string)
    requires i <= |env.scopes|
    ensures var k := JoinScopes(env.scopes[..i], NormalizeKey(key));
      Holds(env, i, p, key, v) <==> p < |env.providers| && k in env.providers[p] && env.providers[p][k] == v
  {
    hide KeyAt, JoinScopes, NormalizeKey;
    forall k {
      KeyIs(env, key, i, k);
    }
  }

  lemma LevelFinds(env: Env, key: string, i: nat)
    requires i <= |env.scopes|
    ensures var found := Lookup(env.providers, JoinScopes(env.scopes[..i], NormalizeKey(key)));
      && (found.None? ==> forall q: nat :: !Has(env, i, q, key))
      && (found.Some? ==> exists p: nat :: Holds(env, i, p, key, found.value) && forall q: nat :: q < p ==> !Has(env, i, q, key))
  {
    hide Holds, JoinScopes, NormalizeKey, Lookup;
    var k := JoinScopes(env.scopes[..i], NormalizeKey(key));
    var found := Lookup(env.providers, k);
    LookupFinds(env.providers, k);
    forall q: nat, v {
      HoldsIs(env, i, q, key, v);
    }
    if found.Some? {
      var p: nat :| FirstWith(env.providers, k, p, found.value);
      assert Holds(env, i, p, key, found.value);
    }
  }

  lemma {:induction false} ResolvedFinds(env: Env, key: string, i: nat)
    requires i <= |env.scopes| && forall j: nat, q: nat :: i < j ==> !Has(env, j, q, key)
    ensures var found := Resolved(env, NormalizeKey(key), i);
      && (found.None? ==> forall j: nat, q: nat :: !Has(env, j, q, key))
      && (found.Some? ==> exists j: nat, p: nat :: Answers(env, key, j, p, found.value))
  {
    hide Holds, Has, Lookup, NormalizeKey, JoinScopes;
    LevelFinds(env, key, i);
    var found := Lookup(env.providers, JoinScopes(env.scopes[..i], NormalizeKey(key)));
    if found.Some? {
      var p: nat :| Holds(env, i, p, key, found.value) && forall q: nat :: q < p ==> !Has(env, i, q, key);
      assert Answers(env, key, i, p, found.value);
    } else if i > 0 {
      forall j: nat, q: nat | i - 1 < j
        ensures !Has(env, j, q, key)
      {
      }
      ResolvedFinds(env, key, i - 1);
    }
  }

  lemma OneAnswer(env: Env, key: string, i: nat, p: nat, v: string, j: nat, q: nat, w: string)
    requires Answers(env, key, i, p, v) && Answers(env, key, j, q, w)
    ensures v == w
  {
    hide Holds;
    assert Has(env, i, p, key) && Has(env, j, q, key);
    assert i == j && p == q;
    assert i <= |env.scopes| by {
      InScopes(env, i, p, key, v);
    }
    HoldsIs(env, i, p, key, v);
    HoldsIs(env, i, p, key, w);
  }

  lemma InScopes(env: Env, i: nat, p: nat, key: string, v: string)
    requires Holds(env, i, p, key, v)
    ensures i <= |env.scopes|
  {
  }

  /** A key has a value exactly if some provider has it at some level; the innermost level wins, and
      there the first provider. */
  lemma GetIff(env: Env, key: string, v: string)
    ensures GetSpec(env, key) == Some(v) <==> Answered(env, key, v)
  {
    assert forall j: nat, q: nat :: |env.scopes| < j ==> !Has(env, j, q, key);
    hide Holds, Resolved;
    ResolvedFinds(env, key, |env.scopes|);
    if i: nat, p: nat :| Answers(env, key, i, p, v) {
      assert Has(env, i, p, key);
      var w := GetSpec(env, key).value;
      var j: nat, q: nat :| Answers(env, key, j, q, w);
      OneAnswer(env, key, i, p, v, j, q, w);
    }
  }

  lemma NoneAnswers(env: Env, key: string)
    ensures GetSpec(env, key).None? <==> forall v :: !Answered(env, key, v)
  {
    hide Answered;
    forall v
      ensures GetSpec(env, key) == Some(v) <==> Answered(env, key, v)
    {
      GetIff(env, key, v);
    }
    if GetSpec(env, key).Some? {
      assert Answered(env, key, GetSpec(env, key).value);
    }
  }

  function Scoped(env: Env, name: string): Env {
    env.(scopes := env.scopes + [NormalizeKey(name)])
  }

  /** The view of a module has one level more, the module's own, whose name is normalized. */
  lemma ScopedIs(env: Env, name: string)
    ensures var e := Scoped(env, name);
      e.providers == env.providers && exists r :: Normalizes(name, r) && e.scopes == env.scopes + [r]
  {
    NormalizeIs(name);
  }

  lemma {:induction false} OuterLevels(env: Env, name: string, key: string, i: nat)
    requires i <= |env.scopes|
    ensures Resolved(Scoped(env, name), key, i) == Resolved(env, key, i)
  {
    assert Scoped(env, name).scopes[..i] == env.scopes[..i];
    if i > 0 {
      OuterLevels(env, name, key, i - 1);
    }
  }

  /** A scoped view answers from its own level first and otherwise like the view around it. */
  lemma ScopedGet(env: Env, name: string, key: string)
    ensures var own := Lookup(env.providers, JoinScopes(env.scopes + [NormalizeKey(name)], NormalizeKey(key)));
      GetSpec(Scoped(env, name), key) == if own.Some? then own else GetSpec(env, key)
  {
    var e := Scoped(env, name);
    assert e.scopes[..|e.scopes|] == e.scopes;
    OuterLevels(env, name, NormalizeKey(key), |env.scopes|);
  }

  /** The view after a chain of nested calls. */
  function ScopedBy(env: Env, names: seq<string>): Env {
    if names == [] then env else Scoped(ScopedBy(env, names[..|names| - 1]), names[|names| - 1])
  }

  /** Scoping never loses a variable. */
  lemma {:induction false} ScopingKeepsVariables(env: Env, names: seq<string>, key: string)
    requires GetSpec(env, key).Some?
    ensures GetSpec(ScopedBy(env, names), key).Some?
  {
    if names != [] {
      ScopingKeepsVariables(env, names[..|names| - 1], key);
      ScopedGet(ScopedBy(env, names[..|names| - 1]), names[|names| - 1], key);
    }
  }
}
