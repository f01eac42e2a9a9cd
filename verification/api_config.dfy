/** The API base URL normalisation: whatever the environment provides, the
    client talks to a base URL that ends in exactly one `/api`. */
module ApiConfig {
  import opened Base
  import opened Text

  const DefaultApiHost: string := "http://localhost:8000"
  const ApiSuffix: string := "/api"

  /** The characters `String.prototype.trim` removes: the ECMAScript
      WhiteSpace and LineTerminator code points. */
  predicate IsWhitespace(c: char) {
    c == ' ' || c == '\t' || c == '\n' || c == '\r' || c == '\U{000B}' || c == '\U{000C}'
    || c == '\U{00A0}' || c == '\U{FEFF}' || c == '\U{1680}' || ('\U{2000}' <= c <= '\U{200A}')
    || c == '\U{2028}' || c == '\U{2029}' || c == '\U{202F}' || c == '\U{205F}' || c == '\U{3000}'
  }

  function TrimStart(s: string): (r: string)
    ensures |r| <= |s| && r == s[|s| - |r|..]
    ensures |r| > 0 ==> !IsWhitespace(r[0])
    ensures forall i :: 0 <= i < |s| - |r| ==> IsWhitespace(s[i])
  {
    if |s| > 0 && IsWhitespace(s[0]) then TrimStart(s[1..]) else s
  }

  function TrimEnd(s: string): (r: string)
    ensures |r| <= |s| && r == s[..|r|]
    ensures |r| > 0 ==> !IsWhitespace(r[|r| - 1])
    ensures forall i :: |r| <= i < |s| ==> IsWhitespace(s[i])
  {
    if |s| > 0 && IsWhitespace(s[|s| - 1]) then TrimEnd(s[..|s| - 1]) else s
  }

  predicate AllWhitespace(t: string) {
    forall k :: 0 <= k < |t| ==> IsWhitespace(t[k])
  }

  /** `r` is what is left of `s` once whitespace is cut from both ends and
      nothing else: a slice of `s`, with only whitespace outside it and no
      whitespace at either of its own ends. */
  predicate IsTrimOf(s: string, r: string) {
    exists i :: 0 <= i <= |s| - |r| && SliceWithin(s, r, i)
  }

  /** `r` sits in `s` at offset `i`, with only whitespace around it. */
  predicate SliceWithin(s: string, r: string, i: int)
    requires 0 <= i <= |s| - |r|
  {
    && r == s[i..i + |r|]
    && AllWhitespace(s[..i]) && AllWhitespace(s[i + |r|..])
    && (|r| > 0 ==> !IsWhitespace(r[0]) && !IsWhitespace(r[|r| - 1]))
  }

  /** `s.trim()`. */
  function Trim(s: string): (r: string)
    ensures |r| > 0 ==> !IsWhitespace(r[0]) && !IsWhitespace(r[|r| - 1])
  {
    TrimEnd(TrimStart(s))
  }

  /** The trim of `s` is a slice of `s` with only whitespace cut away. */
  lemma TrimIsTrimOf(s: string)
    ensures IsTrimOf(s, Trim(s))
  {
    var t := TrimStart(s);
    var r := TrimEnd(t);
    var i := |s| - |t|;
    assert r == s[i..i + |r|];
    assert AllWhitespace(s[..i]);
    var tail := s[i + |r|..];
    assert AllWhitespace(tail) by {
      forall k | 0 <= k < |tail| ensures IsWhitespace(tail[k]) {
        assert tail[k] == t[|r| + k];
      }
    }
    assert SliceWithin(s, r, i);
  }

  /** Cutting a whitespace prefix that ends before a non-whitespace
      character is exactly what `TrimStart` does. */
  lemma {:induction false} TrimStartAt(s: string, i: nat)
    requires i <= |s| && AllWhitespace(s[..i])
    requires i < |s| ==> !IsWhitespace(s[i])
    ensures TrimStart(s) == s[i..]
    decreases i
  {
    if i > 0 {
      assert s[..i][0] == s[0];
      var head := s[1..][..i - 1];
      assert AllWhitespace(head) by {
        forall k | 0 <= k < |head| ensures IsWhitespace(head[k]) {
          assert head[k] == s[..i][k + 1];
        }
      }
      TrimStartAt(s[1..], i - 1);
      assert s[1..][i - 1..] == s[i..];
    }
  }

  /** Cutting a whitespace suffix that starts after a non-whitespace
      character is exactly what `TrimEnd` does. */
  lemma {:induction false} TrimEndAt(t: string, j: nat)
    requires j <= |t| && AllWhitespace(t[j..])
    requires j > 0 ==> !IsWhitespace(t[j - 1])
    ensures TrimEnd(t) == t[..j]
    decreases |t| - j
  {
    if j < |t| {
      var u := t[..|t| - 1];
      assert t[|t| - 1] == t[j..][|t| - 1 - j];
      var tail := u[j..];
      assert AllWhitespace(tail) by {
        forall k | 0 <= k < |tail| ensures IsWhitespace(tail[k]) {
          assert tail[k] == t[j..][k];
        }
      }
      TrimEndAt(u, j);
      assert u[..j] == t[..j];
    }
  }

  /** `IsTrimOf` pins the trim down: whatever satisfies it is `Trim(s)`. */
  lemma TrimUnique(s: string, r: string, i: int)
    requires 0 <= i <= |s| - |r| && SliceWithin(s, r, i)
    ensures r == Trim(s)
  {
    if |r| == 0 {
      AllWhitespaceJoin(s, i);
      assert s[..|s|] == s;
      TrimStartAt(s, |s|);
    } else {
      TrimUniqueNonEmpty(s, r, i);
    }
  }

  /** Whitespace before and after offset `i` is whitespace throughout. */
  lemma AllWhitespaceJoin(s: string, i: int)
    requires 0 <= i <= |s| && AllWhitespace(s[..i]) && AllWhitespace(s[i..])
    ensures AllWhitespace(s)
  {
    forall k | 0 <= k < |s| ensures IsWhitespace(s[k]) {
      if k < i { assert s[k] == s[..i][k]; } else { assert s[k] == s[i..][k - i]; }
    }
  }

  lemma TrimUniqueNonEmpty(s: string, r: string, i: int)
    requires 0 <= i <= |s| - |r| && |r| > 0 && SliceWithin(s, r, i)
    ensures r == Trim(s)
  {
    assert s[i] == r[0];
    TrimStartAt(s, i);
    var t := s[i..];
    assert t[..|r|] == r;
    assert t[|r|..] == s[i + |r|..];
    assert t[|r| - 1] == r[|r| - 1];
    TrimEndAt(t, |r|);
  }

  /** The trim of `s` is exactly the string `IsTrimOf` describes. */
  lemma TrimIff(s: string, r: string)
    ensures IsTrimOf(s, r) <==> r == Trim(s)
  {
    if IsTrimOf(s, r) {
      var i :| 0 <= i <= |s| - |r| && SliceWithin(s, r, i);
      TrimUnique(s, r, i);
    } else {
      TrimIsTrimOf(s);
    }
  }

  /** Appending a whitespace character to a string leaves its leading-trim
      unchanged apart from that character, which is dropped when nothing
      else survives. */
  lemma {:induction false} TrimStartAppendSpace(s: string, c: char)
    requires IsWhitespace(c)
    ensures TrimStart(s + [c]) == if TrimStart(s) == [] then [] else TrimStart(s) + [c]
    decreases |s|
  {
    var t := s + [c];
    if |s| == 0 {
      assert t[1..] == [];
    } else if IsWhitespace(s[0]) {
      assert t[0] == s[0] && t[1..] == s[1..] + [c];
      assert TrimStart(t) == TrimStart(s[1..] + [c]);
      assert TrimStart(s) == TrimStart(s[1..]);
      TrimStartAppendSpace(s[1..], c);
    } else {
      assert t[0] == s[0];
    }
  }

  /** A trailing whitespace character is the first thing `TrimEnd` drops. */
  lemma TrimEndAppendSpace(t: string, c: char)
    requires IsWhitespace(c)
    ensures TrimEnd(t + [c]) == TrimEnd(t)
  {
    assert (t + [c])[..|t|] == t;
  }

  /** Leading whitespace is trimmed away before anything else looks at the
      string. */
  lemma TrimIgnoresLeadingSpace(s: string)
    ensures Trim(" " + s) == Trim(s)
  {
    assert (" " + s)[1..] == s;
  }

  /** So is trailing whitespace. */
  lemma TrimIgnoresTrailingNewline(s: string)
    ensures Trim(s + "\n") == Trim(s)
  {
    TrimStartAppendSpace(s, '\n');
    if TrimStart(s) != [] {
      TrimEndAppendSpace(TrimStart(s), '\n');
    }
  }

  /** A string with no whitespace at either end is its own trim. */
  lemma TrimFixed(s: string)
    requires |s| > 0 ==> !IsWhitespace(s[0]) && !IsWhitespace(s[|s| - 1])
    ensures Trim(s) == s
  {
    assert TrimStart(s) == s;
  }

  /** `s.replace(/\/+$/, '')`: every trailing slash removed. */
  function StripTrailingSlashes(s: string): (r: string)
    ensures |r| <= |s| && r == s[..|r|]
    ensures |r| == 0 || r[|r| - 1] != '/'
    ensures forall i :: |r| <= i < |s| ==> s[i] == '/'
  {
    if |s| > 0 && s[|s| - 1] == '/' then StripTrailingSlashes(s[..|s| - 1]) else s
  }

  /** `providedUrl || DEFAULT_API_HOST`: an absent or empty value is falsy
      and selects the default host. */
  function Raw(provided: Option<string>): (raw: string)
    ensures provided == None || provided == Some("") ==> raw == DefaultApiHost
    ensures provided != None && provided != Some("") ==> raw == provided.value
  {
    match provided
    case None => DefaultApiHost
    case Some(v) => if v == "" then DefaultApiHost else v
  }

  /** A string trimmed and stripped of trailing slashes, the part the suffix
      test is applied to. */
  function StemOf(s: string): (stem: string)
    ensures |stem| == 0 || (!IsWhitespace(stem[0]) && stem[|stem| - 1] != '/')
  {
    var raw := Trim(s);
    var stem := StripTrailingSlashes(raw);
    assert |stem| > 0 ==> stem[0] == raw[0];
    stem
  }

  function Stem(provided: Option<string>): (stem: string)
    ensures |stem| == 0 || (!IsWhitespace(stem[0]) && stem[|stem| - 1] != '/')
  {
    StemOf(Raw(provided))
  }

  /** `stem` followed by `/api` ends in `/api`, in no slash, and starts
      with no whitespace when `stem` does not. */
  lemma AppendSuffix(stem: string)
    requires |stem| == 0 || !IsWhitespace(stem[0])
    ensures EndsWith(stem + ApiSuffix, ApiSuffix)
    ensures (stem + ApiSuffix)[|stem| + 3] == 'i'
    ensures !IsWhitespace((stem + ApiSuffix)[0])
  {
    assert (stem + ApiSuffix)[|stem|..] == ApiSuffix;
    if |stem| == 0 {
      assert (stem + ApiSuffix)[0] == '/';
    } else {
      assert (stem + ApiSuffix)[0] == stem[0];
    }
  }

  /** `normalizeBaseUrl(providedUrl)`. */
  function NormalizeBaseUrl(provided: Option<string>): (url: string)
    ensures EndsWith(url, ApiSuffix)
    ensures url[|url| - 1] == 'i' && !IsWhitespace(url[0])
  {
    var stem := Stem(provided);
    if EndsWith(stem, ApiSuffix) then
      assert stem[|stem| - 1] == ApiSuffix[3];
      stem
    else
      AppendSuffix(stem);
      stem + ApiSuffix
  }

  /** A clean host may be configured with or without its `/api` suffix:
      both normalise to the same base URL. */
  lemma ApiSuffixOptional(host: string)
    requires |host| > 0 && !IsWhitespace(host[0])
    requires !IsWhitespace(host[|host| - 1]) && host[|host| - 1] != '/'
    requires !EndsWith(host, ApiSuffix)
    ensures NormalizeBaseUrl(Some(host)) == host + ApiSuffix
    ensures NormalizeBaseUrl(Some(host + ApiSuffix)) == host + ApiSuffix
  {
    assert Raw(Some(host)) == host;
    StemOfClean(host);
    AppendSuffix(host);
    NormalizeFixes(host + ApiSuffix);
  }

  /** A string already clean at both ends is its own stem. */
  lemma StemOfClean(s: string)
    requires |s| > 0 && !IsWhitespace(s[0]) && !IsWhitespace(s[|s| - 1]) && s[|s| - 1] != '/'
    ensures StemOf(s) == s
  {
    TrimFixed(s);
  }

  /** One more trailing slash makes no difference to the stripped string. */
  lemma StripExtraSlash(s: string)
    ensures StripTrailingSlashes(s + "/") == StripTrailingSlashes(s)
  {
    assert (s + "/")[..|s|] == s;
  }

  /** Without a configured URL, absent or empty, the client uses the local
      development server. */
  lemma DefaultUrl(provided: Option<string>)
    requires provided == None || provided == Some("")
    ensures NormalizeBaseUrl(provided) == "http://localhost:8000/api"
  {
    var h := DefaultApiHost;
    StemOfClean(h);
    assert Raw(provided) == h;
    assert !EndsWith(h, ApiSuffix) by {
      assert h[20] == '0';
    }
    assert h + ApiSuffix == "http://localhost:8000/api";
  }

  /** A URL clean at both ends that already ends in `/api` is a fixed point. */
  lemma NormalizeFixes(url: string)
    requires EndsWith(url, ApiSuffix) && !IsWhitespace(url[0]) && url[|url| - 1] == 'i'
    ensures NormalizeBaseUrl(Some(url)) == url
  {
    assert Raw(Some(url)) == url;
    StemOfClean(url);
    assert Stem(Some(url)) == url;
  }

  /** Normalising a normalised URL changes nothing. */
  lemma NormalizeIdempotent(provided: Option<string>)
    ensures NormalizeBaseUrl(Some(NormalizeBaseUrl(provided))) == NormalizeBaseUrl(provided)
  {
    NormalizeFixes(NormalizeBaseUrl(provided));
  }

  /** Three trailing slashes on a string that does not end in one are all
      stripped. */
  lemma StripThreeSlashes(u: string)
    requires |u| > 0 && u[|u| - 1] != '/'
    ensures StripTrailingSlashes(u + "///") == u
  {
    assert u + "///" == u + "/" + "/" + "/";
    StripExtraSlash(u + "/" + "/");
    StripExtraSlash(u + "/");
    StripExtraSlash(u);
  }

  /** Trailing slashes after a clean `/api` URL are dropped and no second
      `/api` is added. */
  lemma SlashesAfterApi(u: string)
    requires EndsWith(u, ApiSuffix) && !IsWhitespace(u[0])
    ensures NormalizeBaseUrl(Some(u + "///")) == u
  {
    var s := u + "///";
    assert u[|u| - 1] == ApiSuffix[3];
    StripThreeSlashes(u);
    assert s[0] == u[0] && s[|s| - 1] == '/';
    TrimFixed(s);
    assert Raw(Some(s)) == s;
    assert StemOf(s) == u;
  }

  /** The concrete case: `http://h/api///` becomes `http://h/api`. */
  lemma TrailingSlashesAfterApi()
    ensures NormalizeBaseUrl(Some("http://h/api///")) == "http://h/api"
  {
    var u := "http://h/api";
    assert u[|u| - 4..] == ApiSuffix;
    SlashesAfterApi(u);
    assert u + "///" == "http://h/api///";
  }
}
