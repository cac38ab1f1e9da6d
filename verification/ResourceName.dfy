/** Names of AWS resources (internal/cloud/aws/manager.go, awsResourceName). The first eight hex
    digits of SHA-256 are a parameter. */
module ResourceName {
  import opened Prelude

  predicate IsLetter(c: char) { 'a' <= c <= 'z' }

  predicate IsNameChar(c: char) { IsLetter(c) || '0' <= c <= '9' || c == '-' }

  function Clean(c: char): char {
    if IsNameChar(c) then c else '-'
  }

  function Cleaned(s: string): string {
    seq(|s|, i requires 0 <= i < |s| => Clean(s[i]))
  }

  predicate StartsWithDash(s: string) { |s| > 0 && s[0] == '-' }

  predicate EndsWithDash(s: string) { |s| > 0 && s[|s| - 1] == '-' }

  /** strings.Trim(s, "-"). */
  function TrimDashes(s: string): string {
    if StartsWithDash(s) then TrimDashes(s[1..])
    else if EndsWithDash(s) then TrimDashes(s[..|s| - 1])
    else s
  }

  predicate HasDoubleDash(s: string) {
    exists i :: 0 <= i < |s| - 1 && s[i] == s[i + 1] == '-'
  }

  /** strings.ReplaceAll(s, "--", "-"): pairs are replaced from the left without overlap. */
  function ReplaceAll(s: string): string {
    if |s| < 2 then s
    else if s[0] == s[1] == '-' then "-" + ReplaceAll(s[2..])
    else [s[0]] + ReplaceAll(s[1..])
  }

  /** Every run of dashes reduced to one, in one pass. */
  function Collapse(s: string): string {
    if |s| < 2 then s
    else if s[0] == s[1] == '-' then Collapse(s[1..])
    else [s[0]] + Collapse(s[1..])
  }

  ghost predicate HexDigest(hash: string -> string) {
    forall s :: |hash(s)| == 8 && forall i | 0 <= i < 8 :: '0' <= hash(s)[i] <= '9' || 'a' <= hash(s)[i] <= 'f'
  }

  /** What the specification calls a name: it starts with a letter, uses the allowed characters
      only, has no "--" and does not end in a dash. */
  ghost predicate WellNamed(s: string) {
    && |s| > 0 && IsLetter(s[0]) && !EndsWithDash(s)
    && (forall i | 0 <= i < |s| :: IsNameChar(s[i]))
    && !HasDoubleDash(s)
  }

  // ---------------------------------------------------------------- specification

  function Prefixed(s: string): string {
    if s == "" then "tpm" else if IsLetter(s[0]) then s else "tpm-" + s
  }

  /** The name before its length is looked at. */
  function FullName(raw: string): string {
    Collapse(Prefixed(TrimDashes(Cleaned(ToLower(TrimSpace(raw))))))
  }

  const SUFFIX_LENGTH := 9

  function Shortened(name: string, maxLen: int, hash: string -> string): string {
    if maxLen <= 0 then ""
    else if |name| <= maxLen then name
    else if maxLen - SUFFIX_LENGTH < 3 then name[..maxLen]
    else
      var prefix := TrimDashes(name[..maxLen - SUFFIX_LENGTH]);
      (if prefix == "" then "tpm" else prefix) + "-" + hash(name)
  }

  // ---------------------------------------------------------------- the algorithm

  method Sanitize(s: string) returns (b: string)
    ensures b == Cleaned(s)
  {
    b := "";
    for i := 0 to |s|
      invariant b == Cleaned(s)[..i]
    {
      if 'a' <= s[i] <= 'z' {
        b := b + [s[i]];
      } else if '0' <= s[i] <= '9' {
        b := b + [s[i]];
      } else if s[i] == '-' {
        b := b + [s[i]];
      } else {
        b := b + "-";
      }
    }
  }

  /** The replacement loop runs to a fixpoint; what it reaches is the one-pass collapse. */
  method CollapseDashes(s: string) returns (name: string)
    ensures name == Collapse(s)
  {
    name := s;
    while HasDoubleDash(name)
      invariant Collapse(name) == Collapse(s)
      decreases |name|
    {
      ReplaceShrinks(name);
      ReplaceKeepsCollapse(name);
      name := ReplaceAll(name);
    }
    CollapseFixed(name);
  }

  /** The part before the length is looked at. */
  method Normalize(raw: string) returns (name: string)
    ensures name == FullName(raw)
  {
    var b := Sanitize(ToLower(TrimSpace(raw)));
    name := TrimDashes(b);
    if name == "" {
      name := "tpm";
    }
    var first := name[0];
    if first < 'a' || first > 'z' {
      name := "tpm-" + name;
    }
    assert name == Prefixed(TrimDashes(b));
    name := CollapseDashes(name);
  }

  /** The truncation. */
  method Shorten(name: string, maxLen: int, hash: string -> string) returns (r: string)
    requires HexDigest(hash) && maxLen > 0
    ensures r == Shortened(name, maxLen, hash)
  {
    if |name| <= maxLen {
      return name;
    }
    var suffix := "-" + hash(name);
    var prefixLen := maxLen - |suffix|;
    if prefixLen < 3 {
      return name[..maxLen];
    }
    var prefix := TrimDashes(name[..prefixLen]);
    if prefix == "" {
      prefix := "tpm";
    }
    return prefix + suffix;
  }

  /** awsResourceName. */
  method AwsResourceName(raw: string, maxLen: int, hash: string -> string) returns (r: string)
    requires HexDigest(hash)
    ensures r == Shortened(FullName(raw), maxLen, hash)
  {
    if maxLen <= 0 {
      return "";
    }
    var name := Normalize(raw);
    r := Shorten(name, maxLen, hash);
  }

  // ---------------------------------------------------------------- collapsing

  lemma {:induction false} ReplaceShrinks(s: string)
    ensures |ReplaceAll(s)| <= |s|
    ensures HasDoubleDash(s) ==> |ReplaceAll(s)| < |s|
  {
    if |s| >= 2 {
      if s[0] == s[1] == '-' {
        ReplaceShrinks(s[2..]);
      } else {
        ReplaceShrinks(s[1..]);
        if HasDoubleDash(s) {
          var i :| 0 <= i < |s| - 1 && s[i] == s[i + 1] == '-';
          assert s[1..][i - 1] == s[1..][i] == '-';
        }
      }
    }
  }

  /** What collapsing `[c] + t` gives depends on `t` only through its first character and its
      own collapse. */
  lemma {:induction false} CollapseCons(c: char, t: string)
    ensures Collapse([c] + t) == if c == '-' && StartsWithDash(t) then Collapse(t) else [c] + Collapse(t)
  {
    assert ([c] + t)[1..] == t;
  }

  lemma {:induction false} ReplaceKeepsCollapse(s: string)
    ensures StartsWithDash(ReplaceAll(s)) == StartsWithDash(s)
    ensures Collapse(ReplaceAll(s)) == Collapse(s)
  {
    if |s| >= 2 {
      if s[0] == s[1] == '-' {
        var t := s[2..];
        ReplaceKeepsCollapse(t);
        CollapseCons('-', ReplaceAll(t));
        CollapseCons('-', t);
        assert s[1..] == ['-'] + t;
      } else {
        var t := s[1..];
        ReplaceKeepsCollapse(t);
        CollapseCons(s[0], ReplaceAll(t));
      }
    }
  }

  lemma {:induction false} CollapseFixed(s: string)
    requires !HasDoubleDash(s)
    ensures Collapse(s) == s
  {
    if |s| >= 2 {
      forall i | 0 <= i < |s[1..]| - 1
        ensures !(s[1..][i] == s[1..][i + 1] == '-')
      {
        assert s[i + 1] == s[1..][i] && s[i + 2] == s[1..][i + 1];
      }
      CollapseFixed(s[1..]);
    }
  }

  /** Collapsing leaves no double dash and keeps both ends and the set of characters. */
  lemma {:induction false} CollapseSpec(s: string)
    ensures !HasDoubleDash(Collapse(s))
    ensures |s| > 0 ==> |Collapse(s)| > 0 && Collapse(s)[0] == s[0] && Collapse(s)[|Collapse(s)| - 1] == s[|s| - 1]
    ensures forall i | 0 <= i < |Collapse(s)| :: Collapse(s)[i] in s
  {
    if |s| >= 2 {
      CollapseSpec(s[1..]);
      var t := Collapse(s[1..]);
      assert forall c :: c in s[1..] ==> c in s;
      if !(s[0] == s[1] == '-') {
        assert Collapse(s) == [s[0]] + t;
        forall i | 0 < i < |t|
          ensures !(Collapse(s)[i] == Collapse(s)[i + 1] == '-')
        {
          assert !(t[i - 1] == t[i] == '-');
        }
      }
    }
  }

  // ---------------------------------------------------------------- the shape of names

  /** Trimming keeps a contiguous part, without dashes at its ends. */
  lemma {:induction false} TrimDashesSpec(s: string) returns (from: nat, to: nat)
    ensures from <= to <= |s| && TrimDashes(s) == s[from..to]
    ensures !StartsWithDash(TrimDashes(s)) && !EndsWithDash(TrimDashes(s))
    ensures !StartsWithDash(s) ==> from == 0
    ensures |s| > 0 && !StartsWithDash(s) ==> to > 0
  {
    if StartsWithDash(s) {
      from, to := TrimDashesSpec(s[1..]);
      from, to := from + 1, to + 1;
    } else if EndsWithDash(s) {
      from, to := TrimDashesSpec(s[..|s| - 1]);
    } else {
      from, to := 0, |s|;
    }
  }

  lemma {:induction false} FullNameShape(raw: string)
    ensures WellNamed(FullName(raw))
  {
    var b := Cleaned(ToLower(TrimSpace(raw)));
    var from, to := TrimDashesSpec(b);
    PrefixedShape(b[from..to]);
    CollapseSpec(Prefixed(b[from..to]));
  }

  lemma {:induction false} PrefixedShape(t: string)
    requires !StartsWithDash(t) && !EndsWithDash(t) && forall i | 0 <= i < |t| :: IsNameChar(t[i])
    ensures var p := Prefixed(t);
      |p| > 0 && IsLetter(p[0]) && p[|p| - 1] != '-' && forall c | c in p :: IsNameChar(c)
  {
  }

  lemma {:induction false} LowerFixed(s: string)
    requires forall i | 0 <= i < |s| :: IsNameChar(s[i])
    ensures ToLower(s) == s
  {
    if |s| > 0 {
      LowerFixed(s[1..]);
    }
  }

  /** A well-formed name stands for itself. */
  lemma {:induction false} FullNameFixed(s: string)
    requires WellNamed(s)
    ensures FullName(s) == s
  {
    assert !IsSpace(s[0]) && !IsSpace(s[|s| - 1]);
    TrimFixed(s);
    LowerFixed(s);
    assert Cleaned(s) == s;
    CollapseFixed(s);
  }

  // ---------------------------------------------------------------- what a name is made of

  predicate IsWordChar(c: char) { IsLetter(c) || '0' <= c <= '9' }

  /** The maximal stretches of letters and digits. */
  function Words(s: string): (r: seq<string>)
    ensures |s| > 0 && IsWordChar(s[0]) ==> |r| > 0 && |r[0]| > 0 && r[0][0] == s[0]
  {
    if |s| == 0 then []
    else if !IsWordChar(s[0]) then Words(s[1..])
    else if |s| > 1 && IsWordChar(s[1]) then
      var rest := Words(s[1..]);
      [[s[0]] + rest[0]] + rest[1..]
    else [[s[0]]] + Words(s[1..])
  }

  lemma {:induction false} WordsCons(c: char, t: string)
    ensures !IsWordChar(c) ==> Words([c] + t) == Words(t)
    ensures IsWordChar(c) && (t == "" || !IsWordChar(t[0])) ==> Words([c] + t) == [[c]] + Words(t)
    ensures IsWordChar(c) && t != "" && IsWordChar(t[0]) ==> Words([c] + t) == [[c] + Words(t)[0]] + Words(t)[1..]
  {
    assert ([c] + t)[1..] == t;
  }

  /** Anything but letters and digits separates words, as a dash does. */
  lemma {:induction false} WordsCleaned(s: string)
    ensures Words(Cleaned(s)) == Words(s)
  {
    if |s| > 0 {
      WordsCleaned(s[1..]);
      assert Cleaned(s) == [Clean(s[0])] + Cleaned(s[1..]);
      assert s == [s[0]] + s[1..];
      WordsCons(Clean(s[0]), Cleaned(s[1..]));
      WordsCons(s[0], s[1..]);
    }
  }

  lemma {:induction false} WordsDropLast(s: string)
    requires EndsWithDash(s)
    ensures Words(s[..|s| - 1]) == Words(s)
  {
    if |s| > 1 {
      var t := s[1..];
      WordsDropLast(t);
      assert s == [s[0]] + t && s[..|s| - 1] == [s[0]] + t[..|t| - 1];
      WordsCons(s[0], t);
      WordsCons(s[0], t[..|t| - 1]);
    }
  }

  lemma {:induction false} WordsTrimmed(s: string)
    ensures Words(TrimDashes(s)) == Words(s)
  {
    if StartsWithDash(s) {
      WordsTrimmed(s[1..]);
    } else if EndsWithDash(s) {
      WordsTrimmed(s[..|s| - 1]);
      WordsDropLast(s);
    }
  }

  lemma {:induction false} SomeWord(s: string)
    requires |s| > 0 && IsWordChar(s[|s| - 1])
    ensures |Words(s)| > 0
  {
    if |s| > 1 {
      SomeWord(s[1..]);
    }
  }

  lemma {:induction false} JoinLonger(c: char, parts: seq<string>)
    requires |parts| > 0
    ensures Join([[c] + parts[0]] + parts[1..], "-") == [c] + Join(parts, "-")
    ensures Join([[c]] + parts, "-") == [c] + "-" + Join(parts, "-")
  {
    var longer := [[c] + parts[0]] + parts[1..];
    assert longer[1..] == parts[1..] && ([[c]] + parts)[1..] == parts;
    if |parts| > 1 {
      assert Join(longer, "-") == [c] + parts[0] + "-" + Join(parts[1..], "-");
    }
  }

  /** Collapsing leaves one dash between two words. */
  lemma {:induction false} CollapseIsJoin(s: string)
    requires (forall i | 0 <= i < |s| :: IsNameChar(s[i])) && !EndsWithDash(s)
    ensures Collapse(s) == (if StartsWithDash(s) then "-" else "") + Join(Words(s), "-")
  {
    if |s| == 1 {
      assert s == [s[0]] + "";
      WordsCons(s[0], "");
    } else if |s| > 1 {
      var t := s[1..];
      CollapseIsJoin(t);
      assert s == [s[0]] + t;
      WordsCons(s[0], t);
      SomeWord(t);
      JoinLonger(s[0], Words(t));
    }
  }

  /** The words of a name: those of the raw name, after "tpm" if there are none or the first one starts
      with a digit. */
  function NameWords(raw: string): seq<string> {
    var words := Words(ToLower(TrimSpace(raw)));
    if |words| > 0 && |words[0]| > 0 && IsLetter(words[0][0]) then words else ["tpm"] + words
  }

  lemma {:induction false} PrefixedWords(t: string)
    requires !StartsWithDash(t) && !EndsWithDash(t) && forall i | 0 <= i < |t| :: IsNameChar(t[i])
    ensures Words(Prefixed(t))
      == if t != "" && IsLetter(t[0]) then Words(t) else ["tpm"] + Words(t)
  {
    if t == "" {
      TpmWords("");
    } else if !IsLetter(t[0]) {
      TpmWords("-" + t);
      WordsCons('-', t);
      assert "tpm-" + t == "tpm" + ("-" + t);
    }
  }

  lemma {:induction false} TpmWords(t: string)
    requires t == "" || t[0] == '-'
    ensures Words("tpm" + t) == ["tpm"] + Words(t)
  {
    assert ['m'] + t == "m" + t && ['p'] + ("m" + t) == "pm" + t && ['t'] + ("pm" + t) == "tpm" + t;
    assert ['p'] + "m" == "pm" && ['t'] + "pm" == "tpm";
    WordsCons('m', t);
    LongerWord('p', "m" + t, "m", Words(t));
    LongerWord('t', "pm" + t, "pm", Words(t));
  }

  lemma {:induction false} LongerWord(c: char, t: string, w: string, rest: seq<string>)
    requires IsWordChar(c) && |t| > 0 && IsWordChar(t[0]) && Words(t) == [w] + rest
    ensures Words([c] + t) == [[c] + w] + rest
  {
    WordsCons(c, t);
    assert ([w] + rest)[1..] == rest;
  }

  /** Before its length is looked at, a name is made of those words with single dashes between them. */
  lemma {:induction false} FullNameIs(raw: string)
    ensures FullName(raw) == Join(NameWords(raw), "-")
  {
    var low := ToLower(TrimSpace(raw));
    var b := Cleaned(low);
    var t := TrimDashes(b);
    var from, to := TrimDashesSpec(b);
    WordsCleaned(low);
    WordsTrimmed(b);
    PrefixedWords(t);
    PrefixedShape(t);
    CollapseIsJoin(Prefixed(t));
  }

  /** A name too long keeps its beginning, not ending in a dash, and gets a dash and its digest; where
      there is no room for that it is cut. */
  lemma {:induction false} ShortenedIs(raw: string, maxLen: int, hash: string -> string)
    ensures var name, r := Join(NameWords(raw), "-"), Shortened(FullName(raw), maxLen, hash);
      && (maxLen <= 0 ==> r == "")
      && (maxLen >= |name| ==> r == name)
      && (0 < maxLen < 12 && maxLen < |name| ==> r == name[..maxLen])
      && (12 <= maxLen < |name| ==>
            r == (if name[maxLen - 10] == '-' then name[..maxLen - 10] else name[..maxLen - 9]) + "-" + hash(name))
  {
    FullNameIs(raw);
    FullNameShape(raw);
    var name := FullName(raw);
    if 12 <= maxLen < |name| {
      var cut := name[..maxLen - 9];
      var shorter := cut[..|cut| - 1];
      assert shorter == name[..maxLen - 10];
      assert !HasDoubleDash(name);
      assert !(name[maxLen - 11] == name[maxLen - 10] == '-');
      assert !StartsWithDash(cut) && !StartsWithDash(shorter);
      assert TrimDashes(cut) == if EndsWithDash(cut) then TrimDashes(shorter) else cut;
      if EndsWithDash(cut) {
        assert !EndsWithDash(shorter);
      }
    }
  }

  /** Cutting a name at the right place and adding the digest gives a name again. */
  lemma {:induction false} ShortenedShape(name: string, maxLen: int, hash: string -> string)
    requires HexDigest(hash) && WellNamed(name) && maxLen >= SUFFIX_LENGTH + 3
    ensures WellNamed(Shortened(name, maxLen, hash)) && |Shortened(name, maxLen, hash)| <= maxLen
  {
    if |name| > maxLen {
      var cut := name[..maxLen - SUFFIX_LENGTH];
      var from, to := TrimDashesSpec(cut);
      var prefix, digest := TrimDashes(cut), hash(name);
      assert prefix == name[..to];
      assert |digest| == 8;
      var r := prefix + "-" + digest;
      forall i | 0 <= i < |r| - 1
        ensures !(r[i] == r[i + 1] == '-')
      {
        if i < to - 1 {
          assert r[i] == name[i] && r[i + 1] == name[i + 1];
        } else if i == to - 1 {
          assert r[i] == prefix[to - 1];
        } else {
          assert r[i + 1] == digest[i - to];
        }
      }
      forall i | 0 <= i < |r|
        ensures IsNameChar(r[i])
      {
        if i > to {
          assert r[i] == digest[i - to - 1];
        }
      }
    }
  }

  /** With room for a digest, every input gives a well-formed name of at most `maxLen`
      characters, and naming is idempotent. */
  lemma {:induction false} Sanitizes(raw: string, maxLen: int, hash: string -> string)
    requires HexDigest(hash) && maxLen >= SUFFIX_LENGTH + 3
    ensures var r := Shortened(FullName(raw), maxLen, hash);
      && WellNamed(r) && |r| <= maxLen
      && Shortened(FullName(r), maxLen, hash) == r
  {
    FullNameShape(raw);
    ShortenedShape(FullName(raw), maxLen, hash);
    FullNameFixed(Shortened(FullName(raw), maxLen, hash));
  }

  /** Exactly when the result is a name, at any length: below twelve characters the name is cut
      without looking, so the cut must not fall behind a dash. */
  lemma {:induction false} WellNamedIff(raw: string, maxLen: int, hash: string -> string)
    requires HexDigest(hash)
    ensures WellNamed(Shortened(FullName(raw), maxLen, hash)) <==>
      maxLen > 0 && (maxLen >= SUFFIX_LENGTH + 3 || |FullName(raw)| <= maxLen || FullName(raw)[maxLen - 1] != '-')
  {
    FullNameShape(raw);
    var name := FullName(raw);
    if maxLen >= SUFFIX_LENGTH + 3 {
      ShortenedShape(name, maxLen, hash);
    } else if 0 < maxLen < |name| {
      var r := name[..maxLen];
      assert forall i | 0 <= i < |r| :: r[i] == name[i];
    }
  }

  /** For instance "a-b" cut to two characters. */
  lemma {:induction false} ShortNameEndsInDash(hash: string -> string)
    ensures Shortened(FullName("a-b"), 2, hash) == "a-" && !WellNamed("a-")
  {
    assert WellNamed("a-b");
    FullNameFixed("a-b");
    assert EndsWithDash("a-");
  }

  /** Long names stay apart: two of them get the same resource name only if their digests
      collide. */
  lemma {:induction false} LongNamesApart(a: string, b: string, maxLen: int, hash: string -> string)
    requires HexDigest(hash) && maxLen >= SUFFIX_LENGTH + 3
    requires |FullName(a)| > maxLen && |FullName(b)| > maxLen
    requires Shortened(FullName(a), maxLen, hash) == Shortened(FullName(b), maxLen, hash)
    ensures hash(FullName(a)) == hash(FullName(b))
  {
    var r := Shortened(FullName(a), maxLen, hash);
    assert |hash(FullName(a))| == 8 && |hash(FullName(b))| == 8;
    assert r[|r| - 8..] == hash(FullName(a));
    assert r[|r| - 8..] == hash(FullName(b));
  }
}
