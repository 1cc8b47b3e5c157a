/**
 * HttpUtilities (src/utilities/public/http-utilities/http-utilities.ts): the declarative
 * parameter binder. Declarations are names with an optional `[]` (array) and `?`
 * (optional) suffix; values come from a data bag, read through DataUtilities.GetValue.
 * A thrown binding error is a `Failure(BindingError(...))`.
 */
module HttpUtilities {
  import opened Wrappers
  import opened JsValues
  import opened JsStrings
  import opened UriComponent
  import opened FormDataModel
  import opened DataUtilities
  import opened HttpErrors
  import opened SeqLemmas

  // ---------------------------------------------------------------------------------------
  // Path sanitising

  /** No two consecutive slashes occur in `s`. */
  predicate NoDoubleSlash(s: string) {
    forall i :: 0 <= i < |s| - 1 ==> !(s[i] == '/' && s[i + 1] == '/')
  }

  lemma NoDoubleSlashIncludes(s: string)
    ensures NoDoubleSlash(s) <==> !Includes(s, "//")
  {
    if NoDoubleSlash(s) {
      forall i ensures !OccursAt(s, "//", i) {
        if 0 <= i && i + 2 <= |s| {
          assert s[i..i + 2][0] == s[i] && s[i..i + 2][1] == s[i + 1];
        }
      }
    } else {
      var i :| 0 <= i < |s| - 1 && s[i] == '/' && s[i + 1] == '/';
      assert s[i..i + 2] == "//";
      assert OccursAt(s, "//", i);
    }
  }

  /** `s` with every run of slashes shortened to one slash. */
  function Squeeze(s: string): (r: string)
    ensures NoDoubleSlash(r) && |r| <= |s|
    ensures |s| > 0 ==> |r| > 0 && r[0] == s[0]
  {
    if |s| < 2 then s
    else if s[0] == '/' && s[1] == '/' then Squeeze(s[1..])
    else [s[0]] + Squeeze(s[1..])
  }

  /** Replacing one `//` by `/` does not change what squeezing gives. */
  lemma {:induction false} SqueezeReplace(a: string, b: string)
    ensures Squeeze(a + "//" + b) == Squeeze(a + "/" + b)
    decreases |a|
  {
    var x := a + "//" + b;
    var y := a + "/" + b;
    if a == [] {
      assert x[1..] == y;
    } else {
      SqueezeReplace(a[1..], b);
      assert x[1..] == a[1..] + "//" + b;
      assert y[1..] == a[1..] + "/" + b;
      assert x[0] == y[0] && x[1] == y[1];
    }
  }

  lemma {:induction false} SqueezeIdentity(s: string)
    requires NoDoubleSlash(s)
    ensures Squeeze(s) == s
    decreases |s|
  {
    if |s| >= 2 {
      SqueezeIdentity(s[1..]);
      assert [s[0]] + s[1..] == s;
    }
  }

  function DropTrailingSlash(s: string): (r: string)
    ensures NoDoubleSlash(s) ==> NoDoubleSlash(r) && !EndsWith(r, "/")
  {
    if EndsWith(s, "/") then
      assert s[|s| - 1] == s[|s| - 1..][0];
      var r := s[..|s| - 1];
      assert |r| > 0 ==> r[|r| - 1..] == [r[|r| - 1]];
      r
    else s
  }

  /** What `sanitizePath` computes: runs of slashes squeezed, then one trailing slash dropped. */
  function Sanitized(path: string): string {
    if path == "" then path else DropTrailingSlash(Squeeze(path))
  }

  /**
   * A sanitised path has no `//` and does not end with `/`, and sanitising it again changes
   * nothing.
   */
  lemma SanitizedProperties(path: string)
    ensures path == "" ==> Sanitized(path) == ""
    ensures !Includes(Sanitized(path), "//") && !EndsWith(Sanitized(path), "/")
    ensures Sanitized(Sanitized(path)) == Sanitized(path)
  {
    var r := Sanitized(path);
    NoDoubleSlashIncludes(r);
    if r != "" {
      SqueezeIdentity(r);
    }
  }

  /** `sanitizePath(path)` */
  method SanitizePath(path: string) returns (r: string)
    ensures r == Sanitized(path)
  {
    if path == "" {
      return path;
    }
    r := path;
    while IndexOf(r, "//") != -1
      invariant |r| > 0 && Squeeze(r) == Squeeze(path)
      decreases |r|
    {
      var i := IndexOf(r, "//");
      SqueezeReplace(r[..i], r[i + 2..]);
      r := ReplaceFirst(r, "//", "/");
    }
    NoDoubleSlashIncludes(r);
    SqueezeIdentity(r);
    if EndsWith(r, "/") {
      r := r[..|r| - 1];
    }
  }

  // ---------------------------------------------------------------------------------------
  // Parameter declarations

  /** `ParameterInfo` */
  datatype ParameterInfo = ParameterInfo(isMandatory: bool, name: string, isArray: bool)

  /**
   * `extractArrayTypeParameterName(parameter)`: for a declaration that ends in `]` and holds
   * a `[`, the suffix starting at its last `[`; any other declaration is returned as it is.
   */
  function ExtractArrayTypeParameterName(parameter: string): string {
    var lastIndexOfClosingSquareBracket := LastIndexOfChar(parameter, ']');
    if lastIndexOfClosingSquareBracket == -1 || lastIndexOfClosingSquareBracket != |parameter| - 1 then parameter
    else
      var lastIndexOfOpeningSquareBracket := LastIndexOfChar(parameter, '[');
      if lastIndexOfOpeningSquareBracket == -1 then parameter
      else parameter[lastIndexOfOpeningSquareBracket..]
  }

  /** Only a declaration ending in `]` and holding a `[` changes: it becomes its suffix from the last `[`. */
  lemma ExtractArrayTypeParameterNameSpec(parameter: string)
    ensures var r := ExtractArrayTypeParameterName(parameter);
            && (!(EndsWith(parameter, "]") && '[' in parameter) ==> r == parameter)
            && (EndsWith(parameter, "]") && '[' in parameter ==>
                  EndsWith(parameter, r) && |r| > 0 && r[0] == '[' && '[' !in r[1..])
  {
    LastIndexOfCharSpec(parameter, ']');
    LastIndexOfCharSpec(parameter, '[');
    assert EndsWith(parameter, "]") <==> |parameter| > 0 && parameter[|parameter| - 1] == ']' by {
      if |parameter| > 0 {
        assert parameter[|parameter| - 1..] == [parameter[|parameter| - 1]];
      }
    }
    var o := LastIndexOfChar(parameter, '[');
    if o != -1 {
      assert parameter[o..][1..] == parameter[o + 1..];
    }
  }

  /** The declaration text before its first `?` (all of it when there is none). */
  function DeclaredText(parameter: string): (t: string)
    ensures '?' !in t && StartsWith(parameter, t)
    ensures t == parameter || parameter[|t|] == '?'
  {
    IndexOfCharSpec(parameter, '?');
    var i := IndexOfChar(parameter, '?');
    if i == -1 then parameter else parameter[..i]
  }

  /** A declaration text that names an array: it ends in `]` and holds a `[` after its first character. */
  predicate IsArrayText(t: string) {
    EndsWith(t, "]") && exists k :: 0 < k < |t| && t[k] == '['
  }

  /**
   * `extractParameterInfo(parameter)`: mandatory exactly when the declaration has no `?`;
   * the name is taken from the text before the first `?`, and the declaration is an array
   * exactly when that name differs from the text.
   */
  function ExtractParameterInfo(parameter: string): ParameterInfo {
    var indexOfQuestionMark := IndexOfChar(parameter, '?');
    var isMandatory := indexOfQuestionMark == -1;
    var text := if !isMandatory then parameter[..indexOfQuestionMark] else parameter;
    var name := ExtractArrayTypeParameterName(text);
    ParameterInfo(isMandatory, name, text != name)
  }

  lemma ExtractParameterInfoSpec(parameter: string)
    ensures var r := ExtractParameterInfo(parameter);
            && (r.isMandatory <==> '?' !in parameter)
            && (r.isArray <==> IsArrayText(DeclaredText(parameter)))
            && (!r.isArray ==> r.name == DeclaredText(parameter))
            && (r.isArray ==>
                  var t := DeclaredText(parameter);
                  EndsWith(t, r.name) && 0 < |r.name| < |t| && r.name[0] == '[' && '[' !in r.name[1..])
  {
    var text := DeclaredText(parameter);
    IndexOfCharSpec(parameter, '?');
    ArrayTextName(text);
    ExtractArrayTypeParameterNameSpec(text);
  }

  lemma ArrayTextName(t: string)
    ensures ExtractArrayTypeParameterName(t) != t <==> IsArrayText(t)
  {
    var n := ExtractArrayTypeParameterName(t);
    ExtractArrayTypeParameterNameSpec(t);
    LastIndexOfCharSpec(t, '[');
    if EndsWith(t, "]") && '[' in t {
      var o := LastIndexOfChar(t, '[');
      assert n == t[o..];
      if o > 0 {
        assert |n| < |t|;
      } else {
        assert n == t;
        forall k | 0 < k < |t| ensures t[k] != '[' {
          assert t[k] == t[o + 1..][k - 1];
        }
      }
    }
  }

  /** `extractParameterInfo` on the four declaration forms, as the code is written. */
  lemma ExtractParameterInfoExamples()
    ensures ExtractParameterInfo("id") == ParameterInfo(true, "id", false)
    ensures ExtractParameterInfo("id?") == ParameterInfo(false, "id", false)
    ensures ExtractParameterInfo("tags[]") == ParameterInfo(true, "[]", true)
    ensures ExtractParameterInfo("tags[]?") == ParameterInfo(false, "[]", true)
  {
    assert DeclaredText("id?") == "id";
    assert DeclaredText("tags[]?") == "tags[]";
    assert "tags[]"[4] == '[';
    assert LastIndexOfChar("tags[]", '[') == 4;
    assert "tags[]"[4..] == "[]";
  }

  // ---------------------------------------------------------------------------------------
  // Path parameter extraction: the regular expression `{(\w+\??)}` with the global flag

  /** The end of the run of word characters starting at `k`. */
  function WordRunEnd(s: string, k: nat): (r: nat)
    requires k <= |s|
    decreases |s| - k
    ensures k <= r <= |s| && (r < |s| ==> !IsWordChar(s[r]))
    ensures forall i :: k <= i < r ==> IsWordChar(s[i])
  {
    if k == |s| || !IsWordChar(s[k]) then k else WordRunEnd(s, k + 1)
  }

  /** The run of word characters from `k` ends at `e` when `e` is the first non-word position. */
  lemma {:induction false} WordRunEndAt(s: string, k: nat, e: nat)
    requires k <= e <= |s|
    requires forall q :: k <= q < e ==> IsWordChar(s[q])
    requires e < |s| ==> !IsWordChar(s[e])
    decreases e - k
    ensures WordRunEnd(s, k) == e
  {
    if k < e {
      WordRunEndAt(s, k + 1, e);
    }
  }

  /** Word characters, with at most one `?` at the end: what the capture group can hold. */
  predicate IsPathToken(t: string) {
    var w := TokenWord(t);
    |w| > 0 && forall i :: 0 <= i < |w| ==> IsWordChar(w[i])
  }

  /** The match of `{(\w+\??)}` that starts at position `i`: its capture and where it ends. */
  function MatchAt(s: string, i: nat): (r: Option<(string, nat)>)
    requires i < |s|
    ensures r.Some? ==> i < r.value.1 <= |s| && IsPathToken(r.value.0) && s[i..r.value.1] == "{" + r.value.0 + "}"
  {
    if s[i] != '{' then None
    else
      var j := WordRunEnd(s, i + 1);
      if j == i + 1 then None
      else if j < |s| && s[j] == '}' then
        var t := s[i + 1..j];
        assert s[i..j + 1] == "{" + t + "}";
        Some((t, j + 1))
      else if j + 1 < |s| && s[j] == '?' && s[j + 1] == '}' then
        var t := s[i + 1..j + 1];
        assert t[..|t| - 1] == s[i + 1..j];
        assert s[i..j + 2] == "{" + t + "}";
        Some((t, j + 2))
      else None
  }

  /** A match starts at `i` exactly when a path token in braces starts there; its end follows the token. */
  lemma MatchAtSpec(s: string, i: nat, t: string)
    requires i < |s|
    ensures MatchAt(s, i) == Some((t, i + |t| + 2)) <==>
              IsPathToken(t) && i + |t| + 2 <= |s| && s[i..i + |t| + 2] == "{" + t + "}"
  {
    if IsPathToken(t) && i + |t| + 2 <= |s| && s[i..i + |t| + 2] == "{" + t + "}" {
      BracedChars(s, i, t);
      MatchAtToken(s, i, t);
    }
  }

  /** The characters of `t` in braces at position `i`, one by one. */
  lemma BracedChars(s: string, i: nat, t: string)
    requires i + |t| + 2 <= |s| && s[i..i + |t| + 2] == "{" + t + "}"
    ensures s[i] == '{' && s[i + 1 + |t|] == '}' && s[i + 1..i + 1 + |t|] == t
    ensures forall q :: i + 1 <= q < i + 1 + |t| ==> s[q] == t[q - i - 1]
  {
    var b := s[i..i + |t| + 2];
    assert s[i] == b[0];
    assert s[i + 1 + |t|] == b[|t| + 1];
    forall q | i + 1 <= q < i + 1 + |t|
      ensures s[q] == t[q - i - 1]
    {
      assert s[q] == b[q - i];
    }
    var m := s[i + 1..i + 1 + |t|];
    assert |m| == |t| && forall k :: 0 <= k < |m| ==> m[k] == s[i + 1 + k];
  }

  /** A path token in braces at position `i` is the match there. */
  lemma MatchAtToken(s: string, i: nat, t: string)
    requires IsPathToken(t) && i + |t| + 2 <= |s|
    requires s[i] == '{' && s[i + 1 + |t|] == '}' && s[i + 1..i + 1 + |t|] == t
    requires forall q :: i + 1 <= q < i + 1 + |t| ==> s[q] == t[q - i - 1]
    ensures MatchAt(s, i) == Some((t, i + |t| + 2))
  {
    var w := TokenWord(t);
    var e := i + 1 + |w|;
    assert forall q :: i + 1 <= q < e ==> IsWordChar(s[q]) by {
      forall q | i + 1 <= q < e
        ensures IsWordChar(s[q])
      {
        assert s[q] == t[q - i - 1] == w[q - i - 1];
      }
    }
    assert !IsWordChar(s[e]) by {
      if e < i + 1 + |t| {
        assert s[e] == t[|t| - 1] == '?';
      }
    }
    WordRunEndAt(s, i + 1, e);
    if |t| > 0 && t[|t| - 1] == '?' {
      assert s[e] == '?' && e + 1 == i + 1 + |t|;
      assert s[i + 1..e + 1] == t;
    } else {
      assert e == i + 1 + |t|;
    }
  }

  /** `exec` from `lastIndex`: the leftmost match at or after it. */
  function Exec(s: string, lastIndex: nat): (r: Option<(string, nat)>)
    decreases |s| - lastIndex
    ensures r.Some? ==> lastIndex < r.value.1 <= |s| && IsPathToken(r.value.0) && Includes(s, "{" + r.value.0 + "}")
  {
    if lastIndex >= |s| then None
    else match MatchAt(s, lastIndex)
      case Some(m) =>
        assert OccursAt(s, "{" + m.0 + "}", lastIndex);
        Some(m)
      case None => Exec(s, lastIndex + 1)
  }

  /**
   * `exec` finds nothing exactly when no match starts at or after `lastIndex`; otherwise it
   * returns the match at the first position at or after `lastIndex` where one starts.
   */
  lemma ExecSpec(s: string, lastIndex: nat)
    ensures Exec(s, lastIndex).None? <==> forall i :: lastIndex <= i < |s| ==> MatchAt(s, i).None?
    ensures Exec(s, lastIndex).Some? ==>
              exists p :: lastIndex <= p < |s| && MatchAt(s, p) == Exec(s, lastIndex) &&
                          forall i :: lastIndex <= i < p ==> MatchAt(s, i).None?
  {
    ExecNone(s, lastIndex);
    ExecLeftmost(s, lastIndex);
  }

  lemma {:induction false} ExecNone(s: string, lastIndex: nat)
    decreases |s| - lastIndex
    ensures Exec(s, lastIndex).None? <==> forall i :: lastIndex <= i < |s| ==> MatchAt(s, i).None?
  {
    if lastIndex < |s| && MatchAt(s, lastIndex).None? {
      assert Exec(s, lastIndex) == Exec(s, lastIndex + 1);
      ExecNone(s, lastIndex + 1);
    }
  }

  lemma {:induction false} ExecLeftmost(s: string, lastIndex: nat)
    decreases |s| - lastIndex
    ensures Exec(s, lastIndex).Some? ==>
              exists p :: lastIndex <= p < |s| && MatchAt(s, p) == Exec(s, lastIndex) &&
                          forall i :: lastIndex <= i < p ==> MatchAt(s, i).None?
  {
    if lastIndex < |s| && MatchAt(s, lastIndex).None? {
      assert Exec(s, lastIndex) == Exec(s, lastIndex + 1);
      ExecLeftmost(s, lastIndex + 1);
      if Exec(s, lastIndex).Some? {
        var p :| lastIndex + 1 <= p < |s| && MatchAt(s, p) == Exec(s, lastIndex + 1) &&
                 forall i :: lastIndex + 1 <= i < p ==> MatchAt(s, i).None?;
        assert forall i :: lastIndex <= i < p ==> MatchAt(s, i).None?;
      }
    } else if lastIndex < |s| {
      assert MatchAt(s, lastIndex) == Exec(s, lastIndex);
    }
  }

  /** The captures of every successive match from `lastIndex` on. */
  function PathTokens(s: string, lastIndex: nat): (r: seq<string>)
    decreases |s| - lastIndex
  {
    match Exec(s, lastIndex)
    case None => []
    case Some(m) => [m.0] + PathTokens(s, m.1)
  }

  /** The capture of the match at each position from `k` on where one starts, left to right. */
  function MatchesFrom(s: string, k: nat): seq<string>
    decreases |s| - k
  {
    if k >= |s| then []
    else (match MatchAt(s, k) case Some(m) => [m.0] case None => []) + MatchesFrom(s, k + 1)
  }

  /** Inside a match there is no `{`, so no other match starts there. */
  lemma MatchBody(s: string, i: nat)
    requires i < |s| && MatchAt(s, i).Some?
    ensures forall q :: i < q < MatchAt(s, i).value.1 ==> s[q] != '{'
  {
    var m := MatchAt(s, i).value;
    var w := TokenWord(m.0);
    forall q | i < q < m.1
      ensures s[q] != '{'
    {
      assert s[q] == s[i..m.1][q - i] == ("{" + m.0 + "}")[q - i];
      if q - i - 1 < |w| {
        assert m.0[q - i - 1] == w[q - i - 1];
        assert IsWordChar(w[q - i - 1]);
      }
    }
  }

  /** Positions holding no `{` contribute no match. */
  lemma {:induction false} MatchesSkip(s: string, a: nat, b: nat)
    requires a <= b <= |s|
    requires forall q :: a <= q < b ==> s[q] != '{'
    decreases b - a
    ensures MatchesFrom(s, a) == MatchesFrom(s, b)
  {
    if a < b {
      assert MatchesFrom(s, a) == [] + MatchesFrom(s, a + 1);
      MatchesSkip(s, a + 1, b);
    }
  }

  /**
   * The extracted parameters are exactly the captures of every match from `lastIndex` on, left
   * to right, each a well-formed token that occurs in braces in the path.
   */
  lemma {:induction false} PathTokensShape(s: string, lastIndex: nat)
    ensures PathTokens(s, lastIndex) == MatchesFrom(s, lastIndex)
    ensures forall t :: t in PathTokens(s, lastIndex) ==> IsPathToken(t) && Includes(s, "{" + t + "}")
    decreases |s| - lastIndex
  {
    if lastIndex < |s| {
      match MatchAt(s, lastIndex)
      case None =>
        assert Exec(s, lastIndex) == Exec(s, lastIndex + 1);
        PathTokensShape(s, lastIndex + 1);
      case Some(m) =>
        assert Exec(s, lastIndex) == Some(m);
        MatchBody(s, lastIndex);
        MatchesSkip(s, lastIndex + 1, m.1);
        PathTokensShape(s, m.1);
    }
  }

  /** `extractPathParameters(path)` */
  method ExtractPathParameters(path: string) returns (pathParameters: seq<string>)
    ensures pathParameters == PathTokens(path, 0) && pathParameters == MatchesFrom(path, 0)
    ensures forall t :: t in pathParameters ==> IsPathToken(t) && Includes(path, "{" + t + "}")
  {
    pathParameters := [];
    var lastIndex := 0;
    var match_ := Exec(path, lastIndex);
    while match_.Some?
      invariant match_ == Exec(path, lastIndex)
      invariant pathParameters + PathTokens(path, lastIndex) == PathTokens(path, 0)
      decreases |path| - lastIndex
    {
      var pathParameter := match_.value.0;
      pathParameters := pathParameters + [pathParameter];
      lastIndex := match_.value.1;
      match_ := Exec(path, lastIndex);
    }
    PathTokensShape(path, 0);
  }

  // ---------------------------------------------------------------------------------------
  // Binding errors

  /** The position of the first element that `missing` holds for. */
  function FirstWhere<T>(xs: seq<T>, missing: T -> bool): (r: Option<nat>)
    ensures r.Some? ==> r.value < |xs|
  {
    if xs == [] then None
    else if missing(xs[0]) then Some(0)
    else match FirstWhere(xs[1..], missing)
      case None => None
      case Some(k) => Some(k + 1)
  }

  /** Past an element `missing` does not hold for, the search goes on in the rest. */
  lemma FirstWhereSkip<T>(xs: seq<T>, missing: T -> bool)
    requires xs != [] && !missing(xs[0])
    ensures var rest := FirstWhere(xs[1..], missing);
            && FirstWhere(xs, missing) == (if rest.Some? then Some(rest.value + 1) else None)
            && (rest.Some? ==> xs[rest.value + 1] == xs[1..][rest.value])
  {
  }

  /** None when `missing` holds for no element; otherwise an element it holds for, with none before it. */
  lemma {:induction false} FirstWhereSpec<T>(xs: seq<T>, missing: T -> bool)
    ensures FirstWhere(xs, missing).None? <==> forall i :: 0 <= i < |xs| ==> !missing(xs[i])
    ensures var r := FirstWhere(xs, missing);
            r.Some? ==> missing(xs[r.value]) && forall i :: 0 <= i < r.value ==> !missing(xs[i])
  {
    if xs != [] && !missing(xs[0]) {
      FirstWhereSpec(xs[1..], missing);
      assert forall i :: 1 <= i < |xs| ==> xs[1..][i - 1] == xs[i];
    }
  }

  /** The element at the first position `missing` holds for. */
  function FirstMissing<T>(xs: seq<T>, missing: T -> bool): Option<T> {
    var first := FirstWhere(xs, missing);
    if first.Some? then Some(xs[first.value]) else None
  }

  /** Past an element `missing` does not hold for, the first such element is found in the rest. */
  lemma FirstMissingSkip<T>(xs: seq<T>, missing: T -> bool)
    requires xs != [] && !missing(xs[0])
    ensures FirstMissing(xs, missing) == FirstMissing(xs[1..], missing)
  {
    FirstWhereSkip(xs, missing);
  }

  /** The current contents of an optional data bag. */
  function ViewOf(data: Option<Bag>): Option<BagView>
    reads if data.Some? then data.value.Footprint() else {}
  {
    if data.None? then None else Some(data.value.View())
  }

  // ---------------------------------------------------------------------------------------
  // Path parameters

  /** The value a path token is replaced by: the bag's value, with null and undefined read as "". */
  function PathValue(info: ParameterInfo, data: Option<BagView>): Value {
    Coalesce(GetValue(info.name, data), Str(""))
  }

  /** The text `setPathParameters` looks for: the name in braces, with `?` when optional. */
  function Placeholder(info: ParameterInfo): string {
    "{" + info.name + (if info.isMandatory then "" else "?") + "}"
  }

  /** A path token's word characters, without the `?` that marks it optional. */
  function TokenWord(token: string): string {
    if |token| > 0 && token[|token| - 1] == '?' then token[..|token| - 1] else token
  }

  /** The declared text of a path token is its word, which does not name an array. */
  lemma PathTokenText(token: string)
    requires IsPathToken(token)
    ensures DeclaredText(token) == TokenWord(token) && !IsArrayText(TokenWord(token))
    ensures '?' in token <==> token[|token| - 1] == '?'
  {
    var w := TokenWord(token);
    assert forall i :: 0 <= i < |w| ==> w[i] != '?' by {
      assert forall i :: 0 <= i < |w| ==> IsWordChar(w[i]);
    }
    var t := DeclaredText(token);
    if token[|token| - 1] == '?' {
      assert token == w + "?";
      assert t == token[..|t|];
    } else {
      assert token == w;
    }
    assert t == w;
    assert !EndsWith(w, "]") by {
      assert IsWordChar(w[|w| - 1]);
      assert w[|w| - 1..] == [w[|w| - 1]];
    }
  }

  /** The placeholder of a path token is the token in braces, so each replacement targets it. */
  lemma TokenPlaceholder(token: string)
    requires IsPathToken(token)
    ensures Placeholder(ExtractParameterInfo(token)) == "{" + token + "}"
  {
    PathTokenText(token);
    var optional := token[|token| - 1] == '?';
    var w := TokenWord(token);
    BracedToken(w, optional);
    if optional {
      assert token == w + "?";
    }
  }

  lemma BracedToken(w: string, optional: bool)
    ensures "{" + w + (if optional then "?" else "") + "}" == "{" + (if optional then w + "?" else w) + "}"
  {
  }

  /** A mandatory path token whose value is falsy. */
  predicate PathValueMissing(token: string, data: Option<BagView>) {
    var info := ExtractParameterInfo(token);
    info.isMandatory && Falsy(PathValue(info, data))
  }

  function PathMissing(data: Option<BagView>): string -> bool {
    t => PathValueMissing(t, data)
  }

  /** The replacement loop of `setPathParameters`. */
  function SubstitutePathParameters(path: string, tokens: seq<string>, data: Option<BagView>): Result<string, BindingError>
    decreases |tokens|
  {
    if tokens == [] then Success(path)
    else
      var info := ExtractParameterInfo(tokens[0]);
      var value := PathValue(info, data);
      if Falsy(value) && info.isMandatory then Failure(BindingError(info.name, PathLocation))
      else SubstitutePathParameters(ReplaceFirst(path, Placeholder(info), ToJsString(value)), tokens[1..], data)
  }

  /** What `setPathParameters(path, data)` returns or throws. */
  function PathWithParameters(path: string, data: Option<BagView>): Result<string, BindingError> {
    if path == "" then Success(path)
    else
      var tokens := PathTokens(path, 0);
      if tokens == [] then Success(path)
      else match SubstitutePathParameters(path, tokens, data)
        case Failure(e) => Failure(e)
        case Success(p) => Success(Sanitized(p))
  }

  /** The replacement loop fails exactly at the first token whose mandatory value is missing. */
  lemma {:induction false} SubstitutePathParametersFailure(path: string, tokens: seq<string>, data: Option<BagView>)
    ensures var r := SubstitutePathParameters(path, tokens, data);
            var first := FirstMissing(tokens, PathMissing(data));
            && (r.Failure? <==> first.Some?)
            && (r.Failure? ==> r.error == BindingError(ExtractParameterInfo(first.value).name, PathLocation))
    decreases |tokens|
  {
    if tokens != [] && !PathValueMissing(tokens[0], data) {
      FirstMissingSkip(tokens, PathMissing(data));
      var info := ExtractParameterInfo(tokens[0]);
      var next := ReplaceFirst(path, Placeholder(info), ToJsString(PathValue(info, data)));
      SubstituteStep(path, tokens, data);
      SubstitutePathParametersFailure(next, tokens[1..], data);
    }
  }

  /**
   * `setPathParameters`: an empty path or one without tokens comes back unchanged; otherwise
   * the call fails naming the first mandatory token with a falsy value, or succeeds with a
   * sanitised path.
   */
  lemma PathWithParametersOutcome(path: string, data: Option<BagView>)
    ensures path == "" || PathTokens(path, 0) == [] ==> PathWithParameters(path, data) == Success(path)
    ensures path != "" && PathTokens(path, 0) != [] ==>
              var tokens := PathTokens(path, 0);
              var first := FirstWhere(tokens, PathMissing(data));
              && (PathWithParameters(path, data).Failure? <==> first.Some?)
              && (first.Some? ==> PathWithParameters(path, data).error ==
                                    BindingError(ExtractParameterInfo(tokens[first.value]).name, PathLocation))
              && (first.None? ==> var p := PathWithParameters(path, data).value;
                                  !Includes(p, "//") && !EndsWith(p, "/"))
  {
    if path != "" && PathTokens(path, 0) != [] {
      var tokens := PathTokens(path, 0);
      SubstitutePathParametersFailure(path, tokens, data);
      var r := SubstitutePathParameters(path, tokens, data);
      if r.Success? {
        SanitizedProperties(r.value);
        SanitizedProperties(path);
        var p := r.value;
        if p == "" {
          assert Sanitized(p) == "";
        }
        SanitizedNonEmpty(p);
      }
    }
  }

  lemma SanitizedNonEmpty(p: string)
    ensures !Includes(Sanitized(p), "//") && !EndsWith(Sanitized(p), "/")
  {
    SanitizedProperties(p);
  }

  /** One turn of the replacement loop. */
  lemma SubstituteStep(path: string, tokens: seq<string>, data: Option<BagView>)
    requires tokens != []
    ensures var info := ExtractParameterInfo(tokens[0]);
            var value := PathValue(info, data);
            SubstitutePathParameters(path, tokens, data) ==
              if Falsy(value) && info.isMandatory then Failure(BindingError(info.name, PathLocation))
              else SubstitutePathParameters(ReplaceFirst(path, Placeholder(info), ToJsString(value)), tokens[1..], data)
  {
  }

  /** The replacement loop of `setPathParameters`, over the extracted tokens. */
  method ReplacePathParameters(path: string, pathParameters: seq<string>, view: Option<BagView>)
    returns (r: Result<string, BindingError>)
    ensures r == SubstitutePathParameters(path, pathParameters, view)
  {
    var p := path;
    var i := 0;
    while i < |pathParameters|
      invariant 0 <= i <= |pathParameters|
      invariant SubstitutePathParameters(p, pathParameters[i..], view) == SubstitutePathParameters(path, pathParameters, view)
    {
      var pathParameter := pathParameters[i];
      var parameterInfo := ExtractParameterInfo(pathParameter);
      var value := PathValue(parameterInfo, view);
      SubstituteStep(p, pathParameters[i..], view);
      if Falsy(value) && parameterInfo.isMandatory {
        return Failure(BindingError(parameterInfo.name, PathLocation));
      }
      assert pathParameters[i..][1..] == pathParameters[i + 1..];
      var replaced := ReplaceFirst(p, Placeholder(parameterInfo), ToJsString(value));
      p, i := replaced, i + 1;
    }
    assert pathParameters[i..] == [];
    return Success(p);
  }

  /**
   * `setPathParameters(path, data)`. The binder only reads the bag, so it is given the bag's
   * contents.
   */
  method SetPathParameters(path: string, data: Option<BagView>) returns (r: Result<string, BindingError>)
    ensures r == PathWithParameters(path, data)
  {
    if path == "" {
      return Success(path);
    }
    var pathParameters := ExtractPathParameters(path);
    if |pathParameters| == 0 {
      return Success(path);
    }
    r := ReplacePathParameters(path, pathParameters, data);
    if r.Success? {
      var sanitized := SanitizePath(r.value);
      r := Success(sanitized);
    }
  }

  // ---------------------------------------------------------------------------------------
  // Query parameters

  /** A mandatory query parameter whose value is falsy. */
  predicate QueryValueMissing(decl: string, data: Option<BagView>) {
    var info := ExtractParameterInfo(decl);
    info.isMandatory && Falsy(GetValue(info.name, data))
  }

  function QueryMissing(data: Option<BagView>): string -> bool {
    d => QueryValueMissing(d, data)
  }

  /** The loop of `setQueryParameters`. */
  function AppendQueryParameters(path: string, hasQuestionMark: bool, decls: seq<string>, data: Option<BagView>): Result<string, BindingError>
    decreases |decls|
  {
    if decls == [] then Success(path)
    else
      var info := ExtractParameterInfo(decls[0]);
      var value := GetValue(info.name, data);
      if Falsy(value) then
        if info.isMandatory then Failure(BindingError(info.name, QueryLocation))
        else AppendQueryParameters(path, hasQuestionMark, decls[1..], data)
      else
        var pair := info.name + "=" + EncodeUriComponent(ToJsString(value));
        AppendQueryParameters(path + (if hasQuestionMark then "&" else "?") + pair, true, decls[1..], data)
  }

  /** What `setQueryParameters(path, queryParameters, data)` returns or throws. */
  function PathWithQuery(path: string, queryParameters: Option<seq<string>>, data: Option<BagView>): Result<string, BindingError> {
    if path == "" || queryParameters.None? || data.None? then Success(path)
    else AppendQueryParameters(path, Includes(path, "?"), queryParameters.value, data)
  }

  /** The name and encoded value of every declaration whose value is truthy, in declaration order. */
  function QueryPairs(decls: seq<string>, data: Option<BagView>): seq<(string, string)>
    decreases |decls|
  {
    if decls == [] then []
    else
      var info := ExtractParameterInfo(decls[0]);
      var value := GetValue(info.name, data);
      if Falsy(value) then QueryPairs(decls[1..], data)
      else [(info.name, EncodeUriComponent(ToJsString(value)))] + QueryPairs(decls[1..], data)
  }

  /** `?n1=v1&n2=v2...`, starting with `&` when the path already has a query. */
  function RenderQuery(pairs: seq<(string, string)>, hasQuestionMark: bool): string
    decreases |pairs|
  {
    if pairs == [] then ""
    else (if hasQuestionMark then "&" else "?") + pairs[0].0 + "=" + pairs[0].1 + RenderQuery(pairs[1..], true)
  }

  /** On success the path is extended by exactly the rendered pairs of the present parameters. */
  lemma {:induction false} AppendQueryParametersRender(path: string, hasQuestionMark: bool, decls: seq<string>, data: Option<BagView>)
    ensures var r := AppendQueryParameters(path, hasQuestionMark, decls, data);
            r.Success? ==> r.value == path + RenderQuery(QueryPairs(decls, data), hasQuestionMark)
    decreases |decls|
  {
    if decls != [] {
      var info := ExtractParameterInfo(decls[0]);
      var value := GetValue(info.name, data);
      if Falsy(value) {
        AppendQueryParametersRender(path, hasQuestionMark, decls[1..], data);
      } else {
        var encoded := EncodeUriComponent(ToJsString(value));
        var pair := info.name + "=" + encoded;
        var sep := if hasQuestionMark then "&" else "?";
        AppendQueryParametersRender(path + sep + pair, true, decls[1..], data);
        var pairs := QueryPairs(decls, data);
        assert pairs == [(info.name, encoded)] + QueryPairs(decls[1..], data);
        assert pairs[1..] == QueryPairs(decls[1..], data);
        var tail := RenderQuery(pairs[1..], true);
        assert RenderQuery(pairs, hasQuestionMark) == sep + info.name + "=" + encoded + tail;
        Regroup(path, sep, info.name, encoded, tail);
      }
    }
  }

  lemma Regroup(path: string, sep: string, name: string, encoded: string, tail: string)
    ensures path + sep + (name + "=" + encoded) + tail == path + (sep + name + "=" + encoded + tail)
  {
  }

  /** The loop fails exactly at the first mandatory parameter with a falsy value. */
  lemma {:induction false} AppendQueryParametersFailure(path: string, hasQuestionMark: bool, decls: seq<string>, data: Option<BagView>)
    ensures var r := AppendQueryParameters(path, hasQuestionMark, decls, data);
            var first := FirstMissing(decls, QueryMissing(data));
            && (r.Failure? <==> first.Some?)
            && (r.Failure? ==> r.error == BindingError(ExtractParameterInfo(first.value).name, QueryLocation))
    decreases |decls|
  {
    if decls != [] {
      var info := ExtractParameterInfo(decls[0]);
      var value := GetValue(info.name, data);
      if !QueryValueMissing(decls[0], data) {
        FirstMissingSkip(decls, QueryMissing(data));
      }
      if Falsy(value) {
        AppendQueryParametersFailure(path, hasQuestionMark, decls[1..], data);
      } else {
        var pair := info.name + "=" + EncodeUriComponent(ToJsString(value));
        AppendQueryParametersFailure(path + (if hasQuestionMark then "&" else "?") + pair, true, decls[1..], data);
      }
    }
  }

  /** Every encoded value is free of the query delimiters `&`, `=`, `?` and `#`. */
  lemma {:induction false} QueryPairsEncoded(decls: seq<string>, data: Option<BagView>)
    ensures forall p :: p in QueryPairs(decls, data) ==> forall c :: c in p.1 ==> IsEncodedChar(c) && c !in "&=?#"
    decreases |decls|
  {
    if decls != [] {
      QueryPairsEncoded(decls[1..], data);
      var info := ExtractParameterInfo(decls[0]);
      EncodedChars(ToJsString(GetValue(info.name, data)));
    }
  }

  /**
   * `setQueryParameters`: without a path, declarations or data the path comes back
   * unchanged; otherwise the call fails naming the first mandatory parameter with a falsy
   * value, or appends `name=encoded value` for each truthy value, after `?` when the path had
   * no `?` and after `&` otherwise.
   */
  lemma PathWithQueryOutcome(path: string, queryParameters: Option<seq<string>>, data: Option<BagView>)
    ensures path == "" || queryParameters.None? || data.None? ==> PathWithQuery(path, queryParameters, data) == Success(path)
    ensures !(path == "" || queryParameters.None? || data.None?) ==>
              var r := PathWithQuery(path, queryParameters, data);
              var first := FirstWhere(queryParameters.value, QueryMissing(data));
              && (r.Failure? <==> first.Some?)
              && (first.Some? ==> r.error == BindingError(ExtractParameterInfo(queryParameters.value[first.value]).name, QueryLocation))
              && (first.None? ==> r.value == path + RenderQuery(QueryPairs(queryParameters.value, data), Includes(path, "?")))
  {
    if !(path == "" || queryParameters.None? || data.None?) {
      AppendQueryParametersFailure(path, Includes(path, "?"), queryParameters.value, data);
      AppendQueryParametersRender(path, Includes(path, "?"), queryParameters.value, data);
    }
  }

  /** `setQueryParameters(path, queryParameters, data)` */
  method SetQueryParameters(path: string, queryParameters: Option<seq<string>>, data: Option<BagView>) returns (r: Result<string, BindingError>)
    ensures r == PathWithQuery(path, queryParameters, data)
  {
    if path == "" || queryParameters.None? || data.None? {
      return Success(path);
    }
    var view := data;
    var decls := queryParameters.value;
    var p := path;
    var doesPathContainQuestionMark := Includes(path, "?");
    var i := 0;
    while i < |decls|
      invariant 0 <= i <= |decls|
      invariant AppendQueryParameters(p, doesPathContainQuestionMark, decls[i..], view) == PathWithQuery(path, queryParameters, view)
    {
      var parameterInfo := ExtractParameterInfo(decls[i]);
      var value := GetValue(parameterInfo.name, view);
      assert decls[i..][1..] == decls[i + 1..];
      if Falsy(value) {
        if parameterInfo.isMandatory {
          return Failure(BindingError(parameterInfo.name, QueryLocation));
        }
      } else {
        var encoded := EncodeUriComponent(ToJsString(value));
        p := p + (if doesPathContainQuestionMark then "&" else "?");
        p := p + (parameterInfo.name + "=" + encoded);
        doesPathContainQuestionMark := true;
      }
      i := i + 1;
    }
    return Success(p);
  }

  // ---------------------------------------------------------------------------------------
  // Request headers

  /** A mandatory header declaration whose value is not a string. */
  predicate HeaderValueMissing(decl: string, data: Option<BagView>) {
    var info := ExtractParameterInfo(decl);
    info.isMandatory && !GetValue(info.name, data).Str?
  }

  function HeaderMissing(data: Option<BagView>): string -> bool {
    d => HeaderValueMissing(d, data)
  }

  /** The loop of `prepareRequestHeaders`: string values are stored under the lower-cased name. */
  function CollectHeaders(headers: Dict<string>, decls: seq<string>, data: Option<BagView>): Result<Dict<string>, BindingError>
    decreases |decls|
  {
    if decls == [] then Success(headers)
    else
      var info := ExtractParameterInfo(decls[0]);
      var value := GetValue(info.name, data);
      if !value.Str? then
        if info.isMandatory then Failure(BindingError(info.name, HeaderLocation))
        else CollectHeaders(headers, decls[1..], data)
      else CollectHeaders(headers.Put(ToLower(info.name), value.s), decls[1..], data)
  }

  /** What `prepareRequestHeaders(headerParameters, data)` returns or throws. */
  function RequestHeadersFor(headerParameters: Option<seq<string>>, data: Option<BagView>): Result<Dict<string>, BindingError> {
    if headerParameters.None? || |headerParameters.value| == 0 || data.None? then Success(EmptyDict())
    else CollectHeaders(EmptyDict(), headerParameters.value, data)
  }

  /** The string value of the last declaration whose lower-cased name is `key`, if any declares one. */
  function LastHeaderValue(decls: seq<string>, data: Option<BagView>, key: string): Option<string>
    decreases |decls|
  {
    if decls == [] then None
    else match LastHeaderValue(decls[1..], data, key)
      case Some(v) => Some(v)
      case None =>
        var info := ExtractParameterInfo(decls[0]);
        var value := GetValue(info.name, data);
        if value.Str? && ToLower(info.name) == key then Some(value.s) else None
  }

  /** Only a lower-case key can be named by a declaration. */
  lemma {:induction false} LastHeaderValueLowerCase(decls: seq<string>, data: Option<BagView>, key: string)
    ensures LastHeaderValue(decls, data, key).Some? ==> IsLowerCase(key)
    decreases |decls|
  {
    if decls != [] {
      LastHeaderValueLowerCase(decls[1..], data, key);
      ToLowerProperties(ExtractParameterInfo(decls[0]).name);
    }
  }

  /**
   * On success every header holds the value of the last declaration naming it, and headers
   * no declaration names keep what they held.
   */
  lemma {:induction false} CollectHeadersGet(headers: Dict<string>, decls: seq<string>, data: Option<BagView>, key: string)
    ensures var r := CollectHeaders(headers, decls, data);
            r.Success? ==>
              r.value.Get(key) == (if LastHeaderValue(decls, data, key).Some? then LastHeaderValue(decls, data, key) else headers.Get(key))
    decreases |decls|
  {
    if decls != [] {
      var info := ExtractParameterInfo(decls[0]);
      var value := GetValue(info.name, data);
      if value.Str? {
        CollectHeadersGet(headers.Put(ToLower(info.name), value.s), decls[1..], data, key);
      } else {
        CollectHeadersGet(headers, decls[1..], data, key);
      }
    }
  }

  /** The header loop keeps the record well formed. */
  lemma {:induction false} CollectHeadersValid(headers: Dict<string>, decls: seq<string>, data: Option<BagView>)
    requires headers.Valid()
    ensures var r := CollectHeaders(headers, decls, data);
            r.Success? ==> r.value.Valid()
    decreases |decls|
  {
    if decls != [] {
      var info := ExtractParameterInfo(decls[0]);
      var value := GetValue(info.name, data);
      if value.Str? {
        CollectHeadersValid(headers.Put(ToLower(info.name), value.s), decls[1..], data);
      } else {
        CollectHeadersValid(headers, decls[1..], data);
      }
    }
  }

  /** The header loop fails exactly at the first mandatory declaration without a string value. */
  lemma {:induction false} CollectHeadersFailure(headers: Dict<string>, decls: seq<string>, data: Option<BagView>)
    ensures var r := CollectHeaders(headers, decls, data);
            var first := FirstMissing(decls, HeaderMissing(data));
            && (r.Failure? <==> first.Some?)
            && (r.Failure? ==> r.error == BindingError(ExtractParameterInfo(first.value).name, HeaderLocation))
    decreases |decls|
  {
    if decls != [] && !HeaderValueMissing(decls[0], data) {
      FirstMissingSkip(decls, HeaderMissing(data));
      var info := ExtractParameterInfo(decls[0]);
      var value := GetValue(info.name, data);
      var next := if value.Str? then headers.Put(ToLower(info.name), value.s) else headers;
      assert CollectHeaders(headers, decls, data) == CollectHeaders(next, decls[1..], data);
      CollectHeadersFailure(next, decls[1..], data);
    }
  }

  /**
   * `prepareRequestHeaders`: `{}` without declarations or data; otherwise the call fails
   * naming the first mandatory header without a string value, or returns a record whose keys
   * are all lower-case and whose every key holds the value of the last declaration naming it
   * (the empty string included).
   */
  lemma RequestHeadersOutcome(headerParameters: Option<seq<string>>, data: Option<BagView>, key: string)
    ensures headerParameters.None? || |headerParameters.value| == 0 || data.None? ==>
              RequestHeadersFor(headerParameters, data) == Success(EmptyDict())
    ensures !(headerParameters.None? || |headerParameters.value| == 0 || data.None?) ==>
              var r := RequestHeadersFor(headerParameters, data);
              var first := FirstWhere(headerParameters.value, HeaderMissing(data));
              && (r.Failure? <==> first.Some?)
              && (first.Some? ==> r.error == BindingError(ExtractParameterInfo(headerParameters.value[first.value]).name, HeaderLocation))
              && (first.None? ==> r.value.Valid() && r.value.Get(key) == LastHeaderValue(headerParameters.value, data, key))
    ensures RequestHeadersFor(headerParameters, data).Success? && key in RequestHeadersFor(headerParameters, data).value.keys ==>
              IsLowerCase(key)
  {
    if !(headerParameters.None? || |headerParameters.value| == 0 || data.None?) {
      CollectHeadersFailure(EmptyDict(), headerParameters.value, data);
      CollectHeadersGet(EmptyDict(), headerParameters.value, data, key);
      CollectHeadersValid(EmptyDict(), headerParameters.value, data);
      LastHeaderValueLowerCase(headerParameters.value, data, key);
    }
  }

  /** `prepareRequestHeaders(headerParameters, data)` */
  method PrepareRequestHeaders(headerParameters: Option<seq<string>>, data: Option<BagView>) returns (r: Result<Dict<string>, BindingError>)
    ensures r == RequestHeadersFor(headerParameters, data)
  {
    var headers := EmptyDict();
    if headerParameters.None? || |headerParameters.value| == 0 || data.None? {
      return Success(headers);
    }
    var decls := headerParameters.value;
    var i := 0;
    while i < |decls|
      invariant 0 <= i <= |decls|
      invariant CollectHeaders(headers, decls[i..], data) == RequestHeadersFor(headerParameters, data)
    {
      var parameterInfo := ExtractParameterInfo(decls[i]);
      var value := GetValue(parameterInfo.name, data);
      assert decls[i..][1..] == decls[i + 1..];
      if !value.Str? {
        if parameterInfo.isMandatory {
          return Failure(BindingError(parameterInfo.name, HeaderLocation));
        }
      } else {
        headers := headers.Put(ToLower(parameterInfo.name), value.s);
      }
      i := i + 1;
    }
    return Success(headers);
  }

  // ---------------------------------------------------------------------------------------
  // Request body

  /** A mandatory body declaration whose value is null or undefined. */
  predicate BodyValueMissing(decl: string, data: Option<BagView>) {
    var info := ExtractParameterInfo(decl);
    info.isMandatory && Nullish(GetValue(info.name, data))
  }

  function BodyMissing(data: Option<BagView>): string -> bool {
    d => BodyValueMissing(d, data)
  }

  /** The names the declarations carry, in order. */
  function DeclaredNames(decls: seq<string>): seq<string>
    decreases |decls|
  {
    if decls == [] then [] else [ExtractParameterInfo(decls[0]).name] + DeclaredNames(decls[1..])
  }

  /** The loop of `prepareRequestBody`: every value but null and undefined is stored under its name. */
  function CollectBody(body: Dict<Value>, decls: seq<string>, data: Option<BagView>): Result<Dict<Value>, BindingError>
    decreases |decls|
  {
    if decls == [] then Success(body)
    else
      var info := ExtractParameterInfo(decls[0]);
      var value := GetValue(info.name, data);
      if Nullish(value) then
        if info.isMandatory then Failure(BindingError(info.name, BodyLocation))
        else CollectBody(body, decls[1..], data)
      else CollectBody(body.Put(info.name, value), decls[1..], data)
  }

  /** What `prepareRequestBody(bodyParameters, data)` returns (`None` for undefined) or throws. */
  function RequestBodyFor(bodyParameters: Option<seq<string>>, data: Option<BagView>): Result<Option<Dict<Value>>, BindingError> {
    if bodyParameters.None? || |bodyParameters.value| == 0 || data.None? then Success(None)
    else match CollectBody(EmptyDict(), bodyParameters.value, data)
      case Failure(e) => Failure(e)
      case Success(body) => Success(Some(body))
  }

  /**
   * On success a declared name whose value is present holds that value, and every other key
   * keeps what it held.
   */
  lemma {:induction false} CollectBodyGet(body: Dict<Value>, decls: seq<string>, data: Option<BagView>, key: string)
    ensures var r := CollectBody(body, decls, data);
            r.Success? ==>
              r.value.Get(key) == (if key in DeclaredNames(decls) && !Nullish(GetValue(key, data)) then Some(GetValue(key, data)) else body.Get(key))
    decreases |decls|
  {
    if decls != [] {
      var info := ExtractParameterInfo(decls[0]);
      var value := GetValue(info.name, data);
      assert key in DeclaredNames(decls) <==> key == info.name || key in DeclaredNames(decls[1..]);
      if Nullish(value) {
        CollectBodyGet(body, decls[1..], data, key);
      } else {
        var next := body.Put(info.name, value);
        assert next.Get(key) == if key == info.name then Some(GetValue(key, data)) else body.Get(key);
        CollectBodyGet(next, decls[1..], data, key);
      }
    }
  }

  /** The body loop keeps the record well formed. */
  lemma {:induction false} CollectBodyValid(body: Dict<Value>, decls: seq<string>, data: Option<BagView>)
    requires body.Valid()
    ensures var r := CollectBody(body, decls, data);
            r.Success? ==> r.value.Valid()
    decreases |decls|
  {
    if decls != [] {
      var info := ExtractParameterInfo(decls[0]);
      var value := GetValue(info.name, data);
      if Nullish(value) {
        CollectBodyValid(body, decls[1..], data);
      } else {
        CollectBodyValid(body.Put(info.name, value), decls[1..], data);
      }
    }
  }

  /** The body loop fails exactly at the first mandatory declaration whose value is null or undefined. */
  lemma {:induction false} CollectBodyFailure(body: Dict<Value>, decls: seq<string>, data: Option<BagView>)
    ensures var r := CollectBody(body, decls, data);
            var first := FirstMissing(decls, BodyMissing(data));
            && (r.Failure? <==> first.Some?)
            && (r.Failure? ==> r.error == BindingError(ExtractParameterInfo(first.value).name, BodyLocation))
    decreases |decls|
  {
    if decls != [] {
      var info := ExtractParameterInfo(decls[0]);
      var value := GetValue(info.name, data);
      if !BodyValueMissing(decls[0], data) {
        FirstMissingSkip(decls, BodyMissing(data));
        if Nullish(value) {
          CollectBodyFailure(body, decls[1..], data);
        } else {
          CollectBodyFailure(body.Put(info.name, value), decls[1..], data);
        }
      }
    }
  }

  /**
   * `prepareRequestBody`: undefined without declarations or data; otherwise the call fails
   * naming the first mandatory parameter that is null or undefined, or returns a record whose
   * keys are exactly the declared names with a value other than null and undefined (empty
   * strings, 0 and false included), each holding its value.
   */
  lemma RequestBodyOutcome(bodyParameters: Option<seq<string>>, data: Option<BagView>, key: string)
    ensures bodyParameters.None? || |bodyParameters.value| == 0 || data.None? ==> RequestBodyFor(bodyParameters, data) == Success(None)
    ensures !(bodyParameters.None? || |bodyParameters.value| == 0 || data.None?) ==>
              var r := RequestBodyFor(bodyParameters, data);
              var first := FirstWhere(bodyParameters.value, BodyMissing(data));
              && (r.Failure? <==> first.Some?)
              && (first.Some? ==> r.error == BindingError(ExtractParameterInfo(bodyParameters.value[first.value]).name, BodyLocation))
              && (first.None? ==>
                    && r.value.Some? && r.value.value.Valid()
                    && (key in r.value.value.keys <==> key in DeclaredNames(bodyParameters.value) && !Nullish(GetValue(key, data)))
                    && (key in r.value.value.keys ==> r.value.value.Get(key) == Some(GetValue(key, data))))
  {
    if !(bodyParameters.None? || |bodyParameters.value| == 0 || data.None?) {
      CollectBodyFailure(EmptyDict(), bodyParameters.value, data);
      CollectBodyGet(EmptyDict(), bodyParameters.value, data, key);
      CollectBodyValid(EmptyDict(), bodyParameters.value, data);
    }
  }

  /** `prepareRequestBody(bodyParameters, data)` */
  method PrepareRequestBody(bodyParameters: Option<seq<string>>, data: Option<BagView>) returns (r: Result<Option<Dict<Value>>, BindingError>)
    ensures r == RequestBodyFor(bodyParameters, data)
  {
    if bodyParameters.None? || |bodyParameters.value| == 0 || data.None? {
      return Success(None);
    }
    var decls := bodyParameters.value;
    var body := EmptyDict();
    var i := 0;
    while i < |decls|
      invariant 0 <= i <= |decls|
      invariant CollectBody(body, decls[i..], data) == CollectBody(EmptyDict(), decls, data)
    {
      var parameterInfo := ExtractParameterInfo(decls[i]);
      var value := GetValue(parameterInfo.name, data);
      assert decls[i..][1..] == decls[i + 1..];
      if Nullish(value) {
        if parameterInfo.isMandatory {
          return Failure(BindingError(parameterInfo.name, BodyLocation));
        }
      } else {
        body := body.Put(parameterInfo.name, value);
      }
      i := i + 1;
    }
    return Success(Some(body));
  }

  // ---------------------------------------------------------------------------------------
  // Form data

  /** The entries `formData.append(name, element)` adds for each element, in order. */
  function ElementEntries(name: string, items: seq<Value>): (r: seq<Entry>)
    ensures |r| == |items| && forall i :: 0 <= i < |items| ==> r[i] == (name, ToJsString(items[i]))
  {
    seq(|items|, i requires 0 <= i < |items| => (name, ToJsString(items[i])))
  }

  /** The entries one value adds under `name`: one per element for an array, one otherwise. */
  function ValueEntries(name: string, value: Value): seq<Entry> {
    if value.Arr? then ElementEntries(name, value.items) else [(name, ToJsString(value))]
  }

  /** A mandatory scalar field whose value is null or undefined. */
  predicate ScalarFieldMissing(decl: string, data: Option<BagView>) {
    var info := ExtractParameterInfo(decl);
    !info.isArray && info.isMandatory && Nullish(GetValue(info.name, data, false))
  }

  function ScalarMissing(data: Option<BagView>): string -> bool {
    d => ScalarFieldMissing(d, data)
  }

  /**
   * The first loop of `prepareFormData`: array declarations are set aside, every other field
   * with a value adds its entries.
   */
  function AppendScalarFields(entries: seq<Entry>, arrays: seq<ParameterInfo>, fields: seq<string>, data: Option<BagView>)
    : Result<(seq<Entry>, seq<ParameterInfo>), BindingError>
    decreases |fields|
  {
    if fields == [] then Success((entries, arrays))
    else
      var info := ExtractParameterInfo(fields[0]);
      if info.isArray then AppendScalarFields(entries, arrays + [info], fields[1..], data)
      else
        var value := GetValue(info.name, data, false);
        if Nullish(value) then
          if info.isMandatory then Failure(BindingError(info.name, FormLocation))
          else AppendScalarFields(entries, arrays, fields[1..], data)
        else AppendScalarFields(entries + ValueEntries(info.name, value), arrays, fields[1..], data)
  }

  /** The inner loop over matching keys: each key adds the entries of its value. */
  function AppendKeyEntries(entries: seq<Entry>, keys: seq<string>, data: Option<BagView>): seq<Entry>
    decreases |keys|
  {
    if keys == [] then entries
    else AppendKeyEntries(entries + ValueEntries(keys[0], GetValue(keys[0], data, false)), keys[1..], data)
  }

  /** A mandatory array field that no inbound key starts with. */
  predicate ArrayFieldMissing(info: ParameterInfo, keys: seq<string>) {
    info.isMandatory && KeysWithPrefix(info.name, keys) == []
  }

  function ArrayMissing(keys: seq<string>): ParameterInfo -> bool {
    a => ArrayFieldMissing(a, keys)
  }

  /** The second loop of `prepareFormData`, over the array declarations set aside. */
  function AppendArrayFields(entries: seq<Entry>, arrays: seq<ParameterInfo>, keys: seq<string>, data: Option<BagView>)
    : Result<seq<Entry>, BindingError>
    decreases |arrays|
  {
    if arrays == [] then Success(entries)
    else
      var matching := KeysWithPrefix(arrays[0].name, keys);
      if arrays[0].isMandatory && matching == [] then Failure(BindingError(arrays[0].name, FormLocation))
      else AppendArrayFields(AppendKeyEntries(entries, matching, data), arrays[1..], keys, data)
  }

  /** The inbound entry names: those of a FormData bag, none for a record. */
  function FormDataKeys(data: Option<BagView>): seq<string> {
    if data.Some? && data.value.FormView? then Names(data.value.entries) else []
  }

  /** What `prepareFormData(formFields, data)` returns (`None` for undefined) or throws, as an entry list. */
  function FormDataFor(formFields: Option<seq<string>>, data: Option<BagView>): Result<Option<seq<Entry>>, BindingError> {
    if formFields.None? || |formFields.value| == 0 || data.None? then Success(None)
    else match AppendScalarFields([], [], formFields.value, data)
      case Failure(e) => Failure(e)
      case Success((entries, arrays)) =>
        match AppendArrayFields(entries, arrays, FormDataKeys(data), data)
        case Failure(e) => Failure(e)
        case Success(all) => Success(Some(all))
  }

  /** The array declarations among `fields`, in order. */
  function ArrayInfos(fields: seq<string>): seq<ParameterInfo>
    decreases |fields|
  {
    if fields == [] then []
    else
      var info := ExtractParameterInfo(fields[0]);
      (if info.isArray then [info] else []) + ArrayInfos(fields[1..])
  }

  /** The entries of the scalar fields with a value, in declaration order. */
  function ScalarEntries(fields: seq<string>, data: Option<BagView>): seq<Entry>
    decreases |fields|
  {
    if fields == [] then []
    else
      var info := ExtractParameterInfo(fields[0]);
      var value := GetValue(info.name, data, false);
      (if info.isArray || Nullish(value) then [] else ValueEntries(info.name, value)) + ScalarEntries(fields[1..], data)
  }

  /** The entries of the given keys' values, key after key. */
  function KeyEntries(keys: seq<string>, data: Option<BagView>): seq<Entry>
    decreases |keys|
  {
    if keys == [] then [] else ValueEntries(keys[0], GetValue(keys[0], data, false)) + KeyEntries(keys[1..], data)
  }

  /** The entries of every array field: the values of each inbound key that starts with its name. */
  function ArrayEntries(arrays: seq<ParameterInfo>, keys: seq<string>, data: Option<BagView>): seq<Entry>
    decreases |arrays|
  {
    if arrays == [] then [] else KeyEntries(KeysWithPrefix(arrays[0].name, keys), data) + ArrayEntries(arrays[1..], keys, data)
  }

  lemma {:induction false} AppendKeyEntriesConcat(entries: seq<Entry>, keys: seq<string>, data: Option<BagView>)
    ensures AppendKeyEntries(entries, keys, data) == entries + KeyEntries(keys, data)
    decreases |keys|
  {
    if keys != [] {
      var first := ValueEntries(keys[0], GetValue(keys[0], data, false));
      AppendKeyEntriesConcat(entries + first, keys[1..], data);
      ConcatAssoc(entries, first, KeyEntries(keys[1..], data));
    }
  }

  /** The scalar loop fails exactly at the first mandatory scalar field without a value. */
  lemma {:induction false} AppendScalarFieldsFailure(entries: seq<Entry>, arrays: seq<ParameterInfo>, fields: seq<string>, data: Option<BagView>)
    ensures var r := AppendScalarFields(entries, arrays, fields, data);
            var first := FirstMissing(fields, ScalarMissing(data));
            && (r.Failure? <==> first.Some?)
            && (r.Failure? ==> r.error == BindingError(ExtractParameterInfo(first.value).name, FormLocation))
    decreases |fields|
  {
    if fields != [] && !ScalarFieldMissing(fields[0], data) {
      FirstMissingSkip(fields, ScalarMissing(data));
      var info := ExtractParameterInfo(fields[0]);
      var value := GetValue(info.name, data, false);
      var nextEntries := if info.isArray || Nullish(value) then entries else entries + ValueEntries(info.name, value);
      var nextArrays := if info.isArray then arrays + [info] else arrays;
      assert AppendScalarFields(entries, arrays, fields, data) == AppendScalarFields(nextEntries, nextArrays, fields[1..], data);
      AppendScalarFieldsFailure(nextEntries, nextArrays, fields[1..], data);
    }
  }

  /**
   * On success the scalar loop has added the entries of the scalar fields, in declaration
   * order, and set aside the array declarations, in declaration order.
   */
  lemma {:induction false} AppendScalarFieldsSuccess(entries: seq<Entry>, arrays: seq<ParameterInfo>, fields: seq<string>, data: Option<BagView>)
    ensures var r := AppendScalarFields(entries, arrays, fields, data);
            r.Success? ==> r.value == (entries + ScalarEntries(fields, data), arrays + ArrayInfos(fields))
    decreases |fields|
  {
    if fields == [] {
      assert entries + [] == entries && arrays + [] == arrays;
    } else {
      var info := ExtractParameterInfo(fields[0]);
      var value := GetValue(info.name, data, false);
      var restEntries := ScalarEntries(fields[1..], data);
      var restArrays := ArrayInfos(fields[1..]);
      ScalarFieldStep(fields, data);
      if info.isArray {
        AppendScalarFieldsSuccess(entries, arrays + [info], fields[1..], data);
        ConcatAssoc(arrays, [info], restArrays);
      } else if Nullish(value) {
        AppendScalarFieldsSuccess(entries, arrays, fields[1..], data);
      } else {
        var added := ValueEntries(info.name, value);
        AppendScalarFieldsSuccess(entries + added, arrays, fields[1..], data);
        ConcatAssoc(entries, added, restEntries);
      }
    }
  }

  /** What the first field adds to the scalar entries and to the array declarations. */
  lemma ScalarFieldStep(fields: seq<string>, data: Option<BagView>)
    requires fields != []
    ensures var info := ExtractParameterInfo(fields[0]);
            var value := GetValue(info.name, data, false);
            && ScalarEntries(fields, data) ==
                 (if info.isArray || Nullish(value) then ScalarEntries(fields[1..], data)
                  else ValueEntries(info.name, value) + ScalarEntries(fields[1..], data))
            && ArrayInfos(fields) == (if info.isArray then [info] + ArrayInfos(fields[1..]) else ArrayInfos(fields[1..]))
  {
    var info := ExtractParameterInfo(fields[0]);
    EmptyConcat(ScalarEntries(fields[1..], data));
    EmptyConcat(ArrayInfos(fields[1..]));
  }

  /**
   * The array loop fails exactly at the first mandatory array field without a matching key;
   * otherwise it adds the entries of every matching key, field after field.
   */
  lemma {:induction false} AppendArrayFieldsOutcome(entries: seq<Entry>, arrays: seq<ParameterInfo>, keys: seq<string>, data: Option<BagView>)
    ensures var r := AppendArrayFields(entries, arrays, keys, data);
            var first := FirstWhere(arrays, ArrayMissing(keys));
            && (r.Failure? <==> first.Some?)
            && (r.Failure? ==> r.error == BindingError(arrays[first.value].name, FormLocation))
            && (r.Success? ==> r.value == entries + ArrayEntries(arrays, keys, data))
    decreases |arrays|
  {
    if arrays != [] && !ArrayFieldMissing(arrays[0], keys) {
      var matching := KeysWithPrefix(arrays[0].name, keys);
      FirstWhereSkip(arrays, ArrayMissing(keys));
      AppendKeyEntriesConcat(entries, matching, data);
      AppendArrayFieldsOutcome(entries + KeyEntries(matching, data), arrays[1..], keys, data);
      var tail := ArrayEntries(arrays[1..], keys, data);
      ConcatAssoc(entries, KeyEntries(matching, data), tail);
    }
  }

  /**
   * `prepareFormData`: undefined without fields or data. Otherwise the call fails naming the
   * first mandatory scalar field without a value, or else the first mandatory array field no
   * inbound key starts with; on success the form holds the scalar fields' entries in
   * declaration order, then the entries of the inbound keys matching each array field.
   */
  lemma FormDataOutcome(formFields: Option<seq<string>>, data: Option<BagView>)
    ensures formFields.None? || |formFields.value| == 0 || data.None? ==> FormDataFor(formFields, data) == Success(None)
    ensures !(formFields.None? || |formFields.value| == 0 || data.None?) ==>
              var fields := formFields.value;
              var r := FormDataFor(formFields, data);
              var scalarFirst := FirstWhere(fields, ScalarMissing(data));
              var arrayFirst := FirstWhere(ArrayInfos(fields), ArrayMissing(FormDataKeys(data)));
              && (r.Failure? <==> scalarFirst.Some? || arrayFirst.Some?)
              && (scalarFirst.Some? ==> r.error == BindingError(ExtractParameterInfo(fields[scalarFirst.value]).name, FormLocation))
              && (scalarFirst.None? && arrayFirst.Some? ==> r.error == BindingError(ArrayInfos(fields)[arrayFirst.value].name, FormLocation))
              && (r.Success? ==> r.value == Some(ScalarEntries(fields, data) + ArrayEntries(ArrayInfos(fields), FormDataKeys(data), data)))
  {
    if !(formFields.None? || |formFields.value| == 0 || data.None?) {
      var fields := formFields.value;
      AppendScalarFieldsFailure([], [], fields, data);
      AppendScalarFieldsSuccess([], [], fields, data);
      var s := AppendScalarFields([], [], fields, data);
      if s.Success? {
        EmptyConcat(ScalarEntries(fields, data));
        EmptyConcat(ArrayInfos(fields));
        AppendArrayFieldsOutcome(ScalarEntries(fields, data), ArrayInfos(fields), FormDataKeys(data), data);
      }
    }
  }

  /** The text values as entries named `name`. */
  function Pairs(name: string, values: seq<string>): (r: seq<Entry>)
    ensures |r| == |values| && forall i :: 0 <= i < |values| ==> r[i] == (name, values[i])
  {
    seq(|values|, i requires 0 <= i < |values| => (name, values[i]))
  }

  /**
   * Copying a name from a FormData bag: a name without entries has no value, and a name with
   * entries adds one entry per value, in the bag's order.
   */
  lemma FormValueEntries(entries: seq<Entry>, name: string)
    ensures var value := GetValue(name, Some(FormView(entries)), false);
            && (GetAll(entries, name) == [] <==> Nullish(value))
            && (GetAll(entries, name) != [] ==> ValueEntries(name, value) == Pairs(name, GetAll(entries, name)))
  {
    var all := GetAll(entries, name);
    if |all| > 1 {
      var items := Strs(all);
      assert forall i :: 0 <= i < |items| ==> ToJsString(items[i]) == all[i];
    }
  }

  /** Every entry of the array fields is named by an inbound key that starts with one of their names. */
  lemma {:induction false} ArrayEntriesNames(arrays: seq<ParameterInfo>, keys: seq<string>, data: Option<BagView>)
    ensures forall e :: e in ArrayEntries(arrays, keys, data) ==>
              e.0 in keys && exists j :: 0 <= j < |arrays| && StartsWith(e.0, arrays[j].name)
    decreases |arrays|
  {
    if arrays != [] {
      ArrayEntriesNames(arrays[1..], keys, data);
      var matching := KeysWithPrefix(arrays[0].name, keys);
      KeyEntriesNames(matching, data);
      KeysWithPrefixCounts(arrays[0].name, keys);
      forall e | e in ArrayEntries(arrays, keys, data)
        ensures e.0 in keys && exists j :: 0 <= j < |arrays| && StartsWith(e.0, arrays[j].name)
      {
        if e in KeyEntries(matching, data) {
          assert multiset(matching)[e.0] > 0;
          assert StartsWith(e.0, arrays[0].name);
        } else {
          var j :| 0 <= j < |arrays[1..]| && StartsWith(e.0, arrays[1..][j].name);
          assert arrays[1..][j] == arrays[j + 1];
        }
      }
    }
  }

  lemma {:induction false} KeyEntriesNames(keys: seq<string>, data: Option<BagView>)
    ensures forall e :: e in KeyEntries(keys, data) ==> e.0 in keys
    decreases |keys|
  {
    if keys != [] {
      KeyEntriesNames(keys[1..], data);
    }
  }

  /** The names of the declarations that are not arrays, in order. */
  function ScalarNames(fields: seq<string>): seq<string>
    decreases |fields|
  {
    if fields == [] then []
    else
      var info := ExtractParameterInfo(fields[0]);
      (if info.isArray then [] else [info.name]) + ScalarNames(fields[1..])
  }

  lemma ValueEntriesNames(name: string, value: Value)
    ensures forall e :: e in ValueEntries(name, value) ==> e.0 == name
  {
  }

  /** Every scalar entry is named by a declared field that is not an array. */
  lemma {:induction false} ScalarEntriesNames(fields: seq<string>, data: Option<BagView>)
    ensures forall e :: e in ScalarEntries(fields, data) ==> e.0 in ScalarNames(fields)
    decreases |fields|
  {
    if fields != [] {
      ScalarEntriesNames(fields[1..], data);
      var info := ExtractParameterInfo(fields[0]);
      var value := GetValue(info.name, data, false);
      ValueEntriesNames(info.name, value);
      var added := if info.isArray || Nullish(value) then [] else ValueEntries(info.name, value);
      assert ScalarEntries(fields, data) == added + ScalarEntries(fields[1..], data);
      assert ScalarNames(fields) == (if info.isArray then [] else [info.name]) + ScalarNames(fields[1..]);
    }
  }

  /** `formData.append(name, element)` for each element of an array value, `formData.append(name, value)` otherwise. */
  method AppendValue(formData: FormData, name: string, value: Value)
    modifies formData
    ensures formData.entries == old(formData.entries) + ValueEntries(name, value)
  {
    if value.Arr? {
      var i := 0;
      while i < |value.items|
        invariant 0 <= i <= |value.items|
        invariant formData.entries == old(formData.entries) + ElementEntries(name, value.items[..i])
      {
        formData.Append(name, value.items[i]);
        i := i + 1;
      }
      assert value.items[..|value.items|] == value.items;
    } else {
      formData.Append(name, value);
    }
  }

  /** The first loop of `prepareFormData`. */
  method AppendScalarFieldsTo(formData: FormData, formFields: seq<string>, data: Option<BagView>)
    returns (r: Result<seq<ParameterInfo>, BindingError>)
    modifies formData
    ensures match AppendScalarFields(old(formData.entries), [], formFields, data)
            case Failure(e) => r == Failure(e)
            case Success((entries, arrays)) => r == Success(arrays) && formData.entries == entries
  {
    var arrayTypeParameterInfos: seq<ParameterInfo> := [];
    var i := 0;
    while i < |formFields|
      invariant 0 <= i <= |formFields|
      invariant AppendScalarFields(formData.entries, arrayTypeParameterInfos, formFields[i..], data)
                  == AppendScalarFields(old(formData.entries), [], formFields, data)
    {
      var formFieldInfo := ExtractParameterInfo(formFields[i]);
      assert formFields[i..][1..] == formFields[i + 1..];
      if formFieldInfo.isArray {
        arrayTypeParameterInfos := arrayTypeParameterInfos + [formFieldInfo];
      } else {
        var value := GetValue(formFieldInfo.name, data, false);
        if Nullish(value) {
          if formFieldInfo.isMandatory {
            return Failure(BindingError(formFieldInfo.name, FormLocation));
          }
        } else {
          AppendValue(formData, formFieldInfo.name, value);
        }
      }
      i := i + 1;
    }
    return Success(arrayTypeParameterInfos);
  }

  /** The inner loop of the second loop of `prepareFormData`: the values of the matching keys, key after key. */
  method AppendKeyValues(formData: FormData, keys: seq<string>, data: Option<BagView>)
    modifies formData
    ensures formData.entries == AppendKeyEntries(old(formData.entries), keys, data)
  {
    var j := 0;
    while j < |keys|
      invariant 0 <= j <= |keys|
      invariant AppendKeyEntries(formData.entries, keys[j..], data) == AppendKeyEntries(old(formData.entries), keys, data)
    {
      var key := keys[j];
      assert keys[j..][1..] == keys[j + 1..];
      var value := GetValue(key, data, false);
      AppendValue(formData, key, value);
      j := j + 1;
    }
  }

  /** One turn of the array loop. */
  lemma ArrayFieldStep(entries: seq<Entry>, arrays: seq<ParameterInfo>, keys: seq<string>, data: Option<BagView>)
    requires arrays != []
    ensures var matching := KeysWithPrefix(arrays[0].name, keys);
            AppendArrayFields(entries, arrays, keys, data) ==
              if arrays[0].isMandatory && |matching| == 0 then Failure(BindingError(arrays[0].name, FormLocation))
              else AppendArrayFields(AppendKeyEntries(entries, matching, data), arrays[1..], keys, data)
  {
  }

  /** The second loop of `prepareFormData`; `None` when no mandatory array field is missing. */
  method AppendArrayFieldsTo(formData: FormData, arrays: seq<ParameterInfo>, formDataKeys: seq<string>, data: Option<BagView>)
    returns (error: Option<BindingError>)
    modifies formData
    ensures match AppendArrayFields(old(formData.entries), arrays, formDataKeys, data)
            case Failure(e) => error == Some(e)
            case Success(entries) => error.None? && formData.entries == entries
  {
    var i := 0;
    while i < |arrays|
      invariant 0 <= i <= |arrays|
      invariant AppendArrayFields(formData.entries, arrays[i..], formDataKeys, data)
                  == AppendArrayFields(old(formData.entries), arrays, formDataKeys, data)
    {
      var arrayTypeParameterInfo := arrays[i];
      assert arrays[i..][1..] == arrays[i + 1..];
      var formDataArrayEntryKeys := FindFormDataArrayEntryKeys(arrayTypeParameterInfo.name, formDataKeys);
      ArrayFieldStep(formData.entries, arrays[i..], formDataKeys, data);
      if arrayTypeParameterInfo.isMandatory && |formDataArrayEntryKeys| == 0 {
        return Some(BindingError(arrayTypeParameterInfo.name, FormLocation));
      }
      AppendKeyValues(formData, formDataArrayEntryKeys, data);
      i := i + 1;
    }
    return None;
  }

  /** `prepareFormData(formFields, data)` */
  method PrepareFormData(formFields: Option<seq<string>>, data: Option<Bag>) returns (r: Result<Option<FormData>, BindingError>)
    ensures match FormDataFor(formFields, old(ViewOf(data)))
            case Failure(e) => r == Failure(e)
            case Success(None) => r == Success(None)
            case Success(Some(entries)) => r.Success? && r.value.Some? && fresh(r.value.value) && r.value.value.entries == entries
  {
    if formFields.None? || |formFields.value| == 0 || data.None? {
      return Success(None);
    }
    var view := ViewOf(data);
    var formData := new FormData();
    var formDataKeys: seq<string> := [];
    if data.value.FormBag? {
      var it := data.value.form.Keys();
      formDataKeys := GetIterableIteratorToArray(it);
    }
    assert formDataKeys == FormDataKeys(view);
    var scalar := AppendScalarFieldsTo(formData, formFields.value, view);
    if scalar.Failure? {
      return Failure(scalar.error);
    }
    var error := AppendArrayFieldsTo(formData, scalar.value, formDataKeys, view);
    if error.Some? {
      return Failure(error.value);
    }
    return Success(Some(formData));
  }
}
