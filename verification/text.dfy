/** The string operations the scripts use: trimming, splitting at a character and joining. */
module Text {
  // The characters String.prototype.trim removes.
  predicate IsSpace(c: char) {
    || '\U{0009}' <= c <= '\U{000D}' || c == ' ' || c == '\U{00A0}' || c == '\U{1680}'
    || '\U{2000}' <= c <= '\U{200A}' || c == '\U{2028}' || c == '\U{2029}' || c == '\U{202F}'
    || c == '\U{205F}' || c == '\U{3000}' || c == '\U{FEFF}'
  }

  function TrimStart(s: string): (r: string)
    ensures r == "" || !IsSpace(r[0])
    ensures |r| <= |s| && r == s[|s| - |r|..]
  {
    if s == "" || !IsSpace(s[0]) then s else TrimStart(s[1..])
  }

  function TrimEnd(s: string): (r: string)
    ensures r == "" || !IsSpace(r[|r| - 1])
    ensures r <= s
  {
    if s == "" || !IsSpace(s[|s| - 1]) then s else TrimEnd(s[..|s| - 1])
  }

  function Trim(s: string): string { TrimEnd(TrimStart(s)) }

  // Nothing to trim at either end.
  predicate Trimmed(s: string) {
    s == "" || (!IsSpace(s[0]) && !IsSpace(s[|s| - 1]))
  }

  lemma {:induction false} TrimTrimmed(s: string)
    ensures Trimmed(Trim(s))
    ensures Trimmed(s) ==> Trim(s) == s
  {
  }

  lemma {:induction false} TrimTwice(s: string)
    ensures Trim(Trim(s)) == Trim(s)
  {
    hide Trim;
    TrimTrimmed(s);
    TrimTrimmed(Trim(s));
  }

  lemma {:induction false} TrimNewline(s: string)
    requires Trimmed(s)
    ensures Trim(s + "\n") == s
  {
    var t := s + "\n";
    assert t[..|t| - 1] == s;
    assert IsSpace(t[|t| - 1]);
    if s == "" {
      assert t[1..] == "";
    } else {
      assert TrimStart(t) == t;
      assert TrimEnd(t) == TrimEnd(s) == s;
    }
  }

  // ---- Words ----

  predicate Blank(s: string) { forall c | c in s :: IsSpace(c) }

  predicate Word(s: string) { s != "" && forall c | c in s :: !IsSpace(c) }

  function WordEnd(s: string): (n: nat)
    ensures n <= |s| && (n < |s| ==> IsSpace(s[n]))
    ensures forall i | 0 <= i < n :: !IsSpace(s[i])
  {
    if s == "" || IsSpace(s[0]) then 0 else 1 + WordEnd(s[1..])
  }

  // The parts between the blanks: trim() and then split(/\s+/), but for a blank text, which has none here.
  function Words(s: string): seq<string>
    decreases |s|
  {
    var t := TrimStart(s);
    if t == "" then [] else [t[..WordEnd(t)]] + Words(t[WordEnd(t)..])
  }

  lemma {:induction false} TrimStartBlank(blank: string, s: string)
    requires Blank(blank)
    ensures TrimStart(blank + s) == TrimStart(s)
    decreases |blank|
  {
    if blank == "" {
      assert blank + s == s;
    } else {
      assert blank[0] in blank && (blank + s)[1..] == blank[1..] + s;
      TrimStartBlank(blank[1..], s);
    }
  }

  // A word with blanks before it and a blank or nothing after it is the first word.
  lemma {:induction false} FirstWord(blank: string, w: string, rest: string)
    requires Blank(blank) && Word(w) && (rest == "" || IsSpace(rest[0]))
    ensures Words(blank + w + rest) == [w] + Words(rest)
  {
    hide *;
    var t := w + rest;
    assert blank + w + rest == blank + t;
    TrimStartBlank(blank, t);
    WordAhead(w, rest);
    NextWord(blank + t);
    assert t[..|w|] == w && t[|w|..] == rest;
  }

  lemma {:induction false} WordAhead(w: string, rest: string)
    requires Word(w) && (rest == "" || IsSpace(rest[0]))
    ensures w + rest != "" && TrimStart(w + rest) == w + rest && WordEnd(w + rest) == |w|
  {
    assert (w + rest)[0] == w[0] && w[0] in w;
    WordEndIs(w, rest);
  }

  lemma {:induction false} NextWord(s: string)
    ensures var t := TrimStart(s);
      Words(s) == if t == "" then [] else [t[..WordEnd(t)]] + Words(t[WordEnd(t)..])
  {
  }

  lemma {:induction false} WordEndIs(w: string, rest: string)
    requires (forall c | c in w :: !IsSpace(c)) && (rest == "" || IsSpace(rest[0]))
    ensures WordEnd(w + rest) == |w|
    decreases |w|
  {
    if w == "" {
      assert w + rest == rest;
    } else {
      assert w[0] in w && (w + rest)[1..] == w[1..] + rest;
      WordEndIs(w[1..], rest);
    }
  }

  // ---- Splitting and joining ----

  function Split(s: string, sep: char): (parts: seq<string>)
    ensures parts != [] && forall p | p in parts :: sep !in p
  {
    if s == "" then [""]
    else
      var rest := Split(s[1..], sep);
      if s[0] == sep then [""] + rest else [[s[0]] + rest[0]] + rest[1..]
  }

  function Join(parts: seq<string>, sep: char): string {
    if parts == [] then "" else if |parts| == 1 then parts[0] else parts[0] + [sep] + Join(parts[1..], sep)
  }

  lemma {:induction false} SplitPrefix(p: string, s: string, sep: char)
    requires sep !in p
    ensures Split(p + [sep] + s, sep) == [p] + Split(s, sep)
    decreases |p|
  {
    var all := p + [sep] + s;
    if p == "" {
      assert all[1..] == s;
    } else {
      assert all[1..] == p[1..] + [sep] + s;
      assert p[0] in p && all[0] != sep;
      SplitPrefix(p[1..], s, sep);
      assert [p[0]] + p[1..] == p;
      assert ([p[1..]] + Split(s, sep))[1..] == Split(s, sep);
    }
  }

  lemma {:induction false} SplitWhole(p: string, sep: char)
    requires sep !in p
    ensures Split(p, sep) == [p]
    decreases |p|
  {
    if p != "" {
      assert p[0] in p;
      SplitWhole(p[1..], sep);
      assert [p[0]] + p[1..] == p;
    }
  }

  lemma {:induction false} SplitJoin(parts: seq<string>, sep: char)
    requires parts != [] && forall p | p in parts :: sep !in p
    ensures Split(Join(parts, sep), sep) == parts
    decreases |parts|
  {
    if |parts| == 1 {
      SplitWhole(parts[0], sep);
    } else {
      SplitJoin(parts[1..], sep);
      SplitPrefix(parts[0], Join(parts[1..], sep), sep);
    }
  }

  lemma {:induction false} JoinSplit(s: string, sep: char)
    ensures Join(Split(s, sep), sep) == s
    decreases |s|
  {
    if s != "" {
      JoinSplit(s[1..], sep);
      var rest := Split(s[1..], sep);
      if s[0] == sep {
        assert ([""] + rest)[1..] == rest;
      } else {
        var first := [s[0]] + rest[0];
        assert Split(s, sep) == [first] + rest[1..];
        if |rest| > 1 { assert ([first] + rest[1..])[1..] == rest[1..]; }
      }
    }
  }

  // A join of trimmed, non-empty parts has nothing to trim.
  lemma {:induction false} JoinTrimmed(parts: seq<string>, sep: char)
    requires parts != [] && forall i | 0 <= i < |parts| :: parts[i] != "" && Trimmed(parts[i])
    ensures Join(parts, sep) != "" && Trimmed(Join(parts, sep))
    ensures Join(parts, sep)[0] == parts[0][0]
    decreases |parts|
  {
    if |parts| > 1 {
      JoinTrimmed(parts[1..], sep);
      var rest := Join(parts[1..], sep);
      var all := parts[0] + [sep] + rest;
      assert all[|all| - 1] == rest[|rest| - 1];
    }
  }
}
