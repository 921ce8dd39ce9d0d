/** The string helpers of Go's standard library that the markdown walk uses, and the laws
    about them that the walk's theorems need. */
module Text {

  /** White space as defined by Unicode, the set both TrimSpace and Fields use. */
  predicate IsSpace(c: char)
  {
    var k := c as int;
    || 9 <= k <= 13 || k == 0x20 || k == 0x85 || k == 0xA0 || k == 0x1680
    || 0x2000 <= k <= 0x200A || k == 0x2028 || k == 0x2029 || k == 0x202F
    || k == 0x205F || k == 0x3000
  }

  function TrimLeft(s: string): (r: string)
    ensures r != "" ==> !IsSpace(r[0])
    ensures |r| <= |s|
  {
    if s != "" && IsSpace(s[0]) then TrimLeft(s[1..]) else s
  }

  function TrimRight(s: string): (r: string)
    ensures r != "" ==> !IsSpace(r[|r| - 1])
    ensures r <= s
  {
    if s != "" && IsSpace(s[|s| - 1]) then TrimRight(s[..|s| - 1]) else s
  }

  function TrimSpace(s: string): string
  {
    TrimRight(TrimLeft(s))
  }

  /** The length of the word s starts with. */
  function WordLength(s: string): (n: nat)
    ensures n <= |s|
    ensures s != "" && !IsSpace(s[0]) ==> n > 0
    ensures forall i :: 0 <= i < n ==> !IsSpace(s[i])
    ensures n < |s| ==> IsSpace(s[n])
  {
    if s == "" || IsSpace(s[0]) then 0 else 1 + WordLength(s[1..])
  }

  /** The words of s: maximal runs without white space. */
  function Fields(s: string): seq<string>
    decreases |s|
  {
    var t := TrimLeft(s);
    if t == "" then []
    else
      var n := WordLength(t);
      [t[..n]] + Fields(t[n..])
  }

  function Join(words: seq<string>, sep: string): string
  {
    if words == [] then ""
    else if |words| == 1 then words[0]
    else words[0] + sep + Join(words[1..], sep)
  }

  function CollapseWS(s: string): string
  {
    Join(Fields(s), " ")
  }

  function Repeat(c: char, n: nat): (r: string)
    ensures |r| == n && forall i :: 0 <= i < n ==> r[i] == c
  {
    seq(n, _ => c)
  }

  // ---- Non-white-space content ----------------------------------------------------------

  /** The characters of s that are not white space. */
  function NonWs(s: string): string
  {
    if s == "" then ""
    else if IsSpace(s[0]) then NonWs(s[1..])
    else [s[0]] + NonWs(s[1..])
  }

  lemma {:induction false} NonWsConcat(a: string, b: string)
    ensures NonWs(a + b) == NonWs(a) + NonWs(b)
  {
    if a == "" {
      assert a + b == b;
    } else {
      assert (a + b)[1..] == a[1..] + b;
      NonWsConcat(a[1..], b);
    }
  }

  lemma {:induction false} NonWsTrimLeft(s: string)
    ensures NonWs(TrimLeft(s)) == NonWs(s)
  {
    if s != "" && IsSpace(s[0]) {
      NonWsTrimLeft(s[1..]);
    }
  }

  lemma {:induction false} NonWsTrimRight(s: string)
    ensures NonWs(TrimRight(s)) == NonWs(s)
  {
    if s != "" && IsSpace(s[|s| - 1]) {
      NonWsTrimRight(s[..|s| - 1]);
      assert s == s[..|s| - 1] + [s[|s| - 1]];
      NonWsConcat(s[..|s| - 1], [s[|s| - 1]]);
    }
  }

  /** Trimming loses nothing but white space. */
  lemma NonWsTrim(s: string)
    ensures NonWs(TrimSpace(s)) == NonWs(s)
  {
    NonWsTrimLeft(s);
    NonWsTrimRight(TrimLeft(s));
  }

  lemma {:induction false} NonWsFields(s: string)
    ensures NonWs(Join(Fields(s), " ")) == NonWs(s)
    decreases |s|
  {
    var t := TrimLeft(s);
    NonWsTrimLeft(s);
    if t != "" {
      var n := WordLength(t);
      var rest := Fields(t[n..]);
      NonWsFields(t[n..]);
      assert t == t[..n] + t[n..];
      NonWsConcat(t[..n], t[n..]);
      if rest == [] {
        assert Join(Fields(s), " ") == t[..n];
      } else {
        assert Fields(s)[1..] == rest;
        NonWsConcat(t[..n] + " ", Join(rest, " "));
        NonWsConcat(t[..n], " ");
      }
    }
  }

  /** Collapsing loses nothing but white space. */
  lemma NonWsCollapse(s: string)
    ensures NonWs(CollapseWS(s)) == NonWs(s)
  {
    NonWsFields(s);
  }

  // ---- Trimming, exactly --------------------------------------------------------------------

  /** The white space of Unicode, by character. */
  lemma WhiteSpaceIs(c: char)
    ensures IsSpace(c) <==>
      || c in "\t\n\U{B}\U{C}\r \U{85}\U{A0}\U{1680}\U{2028}\U{2029}\U{202F}\U{205F}\U{3000}"
      || '\U{2000}' <= c <= '\U{200A}'
  {
  }

  predicate Blank(s: string)
  {
    forall i :: 0 <= i < |s| ==> IsSpace(s[i])
  }

  predicate NoSpace(s: string)
  {
    forall i :: 0 <= i < |s| ==> !IsSpace(s[i])
  }

  /** Neither starts nor ends with white space. */
  predicate Tight(s: string)
  {
    s != "" ==> !IsSpace(s[0]) && !IsSpace(s[|s| - 1])
  }

  lemma {:induction false} TrimLeftIs(a: string, t: string)
    requires Blank(a) && (t != "" ==> !IsSpace(t[0]))
    ensures TrimLeft(a + t) == t
  {
    if a == "" {
      assert a + t == t;
    } else {
      assert (a + t)[1..] == a[1..] + t;
      TrimLeftIs(a[1..], t);
    }
  }

  lemma {:induction false} TrimRightIs(t: string, b: string)
    requires Blank(b) && (t != "" ==> !IsSpace(t[|t| - 1]))
    ensures TrimRight(t + b) == t
  {
    if b == "" {
      assert t + b == t;
    } else {
      assert (t + b)[..|t + b| - 1] == t + b[..|b| - 1];
      TrimRightIs(t, b[..|b| - 1]);
    }
  }

  /** Trimming gives back what white space was put around. */
  lemma TrimIs(a: string, t: string, b: string)
    requires Blank(a) && Blank(b) && Tight(t)
    ensures TrimSpace(a + t + b) == t
  {
    if t == "" {
      TrimLeftIs(a + b, "");
      assert a + t + b == (a + b) + "";
    } else {
      assert a + t + b == a + (t + b);
      TrimLeftIs(a, t + b);
      TrimRightIs(t, b);
    }
  }

  /** And every string is some white space around what trimming leaves. */
  lemma {:induction false} TrimSplits(s: string) returns (a: string, b: string)
    ensures s == a + TrimSpace(s) + b && Blank(a) && Blank(b) && Tight(TrimSpace(s))
    decreases |s|
  {
    if s != "" && IsSpace(s[0]) {
      a, b := TrimSplits(s[1..]);
      a := [s[0]] + a;
      assert s == [s[0]] + s[1..];
    } else {
      a := "";
      b := TrimRightSplits(s);
      assert "" + TrimSpace(s) == TrimSpace(s);
    }
  }

  lemma {:induction false} TrimRightSplits(s: string) returns (b: string)
    ensures s == TrimRight(s) + b && Blank(b)
    ensures s != "" && !IsSpace(s[0]) ==> TrimRight(s) != ""
  {
    if s != "" && IsSpace(s[|s| - 1]) {
      var init := s[..|s| - 1];
      b := TrimRightSplits(init);
      assert s == init + [s[|s| - 1]];
      assert TrimRight(init) + b + [s[|s| - 1]] == TrimRight(init) + (b + [s[|s| - 1]]);
      b := b + [s[|s| - 1]];
    } else {
      b := "";
    }
  }

  // ---- Words --------------------------------------------------------------------------------

  predicate IsWord(w: string)
  {
    w != "" && NoSpace(w)
  }

  lemma {:induction false} FieldsAreWords(s: string)
    ensures forall i :: 0 <= i < |Fields(s)| ==> IsWord(Fields(s)[i])
    decreases |s|
  {
    var t := TrimLeft(s);
    if t != "" {
      FieldsAreWords(t[WordLength(t)..]);
    }
  }

  lemma {:induction false} WordLengthIs(w: string, rest: string)
    requires NoSpace(w) && (rest != "" ==> IsSpace(rest[0]))
    ensures WordLength(w + rest) == |w|
  {
    if w == "" {
      assert w + rest == rest;
    } else {
      assert (w + rest)[1..] == w[1..] + rest;
      WordLengthIs(w[1..], rest);
    }
  }

  lemma FieldsOfWord(w: string, rest: string)
    requires IsWord(w) && (rest != "" ==> IsSpace(rest[0]))
    ensures Fields(w + rest) == [w] + Fields(rest)
  {
    WordLengthIs(w, rest);
    assert TrimLeft(w + rest) == w + rest;
    assert (w + rest)[..|w|] == w && (w + rest)[|w|..] == rest;
  }

  /** Words joined by spaces come apart into the same words. */
  lemma {:induction false} FieldsOfJoin(words: seq<string>)
    requires forall i :: 0 <= i < |words| ==> IsWord(words[i])
    ensures Fields(Join(words, " ")) == words
  {
    if |words| == 1 {
      FieldsOfWord(words[0], "");
      assert words[0] + "" == words[0];
    } else if words != [] {
      var rest := Join(words[1..], " ");
      FieldsOfJoin(words[1..]);
      assert words[0] + " " + rest == words[0] + (" " + rest);
      FieldsOfWord(words[0], " " + rest);
      assert (" " + rest)[1..] == rest;
    }
  }

  /** Every white space stands between two other characters, and is a single space. */
  predicate SingleSpaced(t: string)
  {
    forall i :: 0 <= i < |t| && IsSpace(t[i]) ==>
      t[i] == ' ' && 0 < i < |t| - 1 && !IsSpace(t[i - 1]) && !IsSpace(t[i + 1])
  }

  lemma {:induction false} JoinIsSingleSpaced(words: seq<string>)
    requires forall i :: 0 <= i < |words| ==> IsWord(words[i])
    ensures SingleSpaced(Join(words, " ")) && Tight(Join(words, " ")) && (words != [] ==> Join(words, " ") != "")
  {
    if |words| > 1 {
      var w, rest := words[0], Join(words[1..], " ");
      JoinIsSingleSpaced(words[1..]);
      var t := w + " " + rest;
      forall i | 0 <= i < |t| && IsSpace(t[i])
        ensures t[i] == ' ' && 0 < i < |t| - 1 && !IsSpace(t[i - 1]) && !IsSpace(t[i + 1])
      {
        if i > |w| {
          assert t[i] == rest[i - |w| - 1];
        }
      }
    }
  }

  /** Collapsing keeps the words and puts a single space between them. */
  lemma CollapseIs(s: string)
    ensures Fields(CollapseWS(s)) == Fields(s)
    ensures SingleSpaced(CollapseWS(s)) && Tight(CollapseWS(s))
  {
    FieldsAreWords(s);
    FieldsOfJoin(Fields(s));
    JoinIsSingleSpaced(Fields(s));
  }

  // ---- Subsequences -----------------------------------------------------------------------

  /** The characters of a occur in b, in order. */
  predicate Subseq(a: string, b: string)
  {
    || a == ""
    || (b != "" && ((a[0] == b[0] && Subseq(a[1..], b[1..])) || Subseq(a, b[1..])))
  }

  lemma {:induction false} SubseqRefl(a: string)
    ensures Subseq(a, a)
  {
    if a != "" {
      SubseqRefl(a[1..]);
    }
  }

  lemma {:induction false} SubseqConcat(a: string, b: string, c: string, d: string)
    requires Subseq(a, b) && Subseq(c, d)
    ensures Subseq(a + c, b + d)
    decreases |b|
  {
    if b == "" {
      assert a + c == c && b + d == d;
    } else {
      assert (b + d)[1..] == b[1..] + d;
      if a == "" {
        SubseqConcat("", b[1..], c, d);
        assert a + c == "" + c;
      } else if a[0] == b[0] && Subseq(a[1..], b[1..]) {
        assert (a + c)[1..] == a[1..] + c;
        SubseqConcat(a[1..], b[1..], c, d);
      } else {
        SubseqConcat(a, b[1..], c, d);
      }
    }
  }

  /** Text survives being wrapped: what x keeps of the content, before + x + after keeps. */
  lemma NonWsWrap(text: string, before: string, x: string, after: string)
    requires Subseq(NonWs(text), NonWs(x))
    ensures Subseq(NonWs(text), NonWs(before + x + after))
  {
    NonWsConcat(before + x, after);
    NonWsConcat(before, x);
    SubseqConcat("", NonWs(before), NonWs(text), NonWs(x));
    assert "" + NonWs(text) == NonWs(text);
    SubseqConcat(NonWs(text), NonWs(before) + NonWs(x), "", NonWs(after));
    assert NonWs(text) + "" == NonWs(text);
  }
}
