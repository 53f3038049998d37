/** Cleaning a text keeps its words: what is left is the words in their order, one blank between two. */
module Words {
  import opened Text

  /** The maximal runs without blanks, in order. */
  function WordsOf(s: string): (words: seq<string>)
    ensures s != "" && !IsSpace(s[0]) ==> words != []
  {
    if s == "" then []
    else
      var rest := WordsOf(s[1..]);
      if IsSpace(s[0]) then rest
      else if |s| > 1 && !IsSpace(s[1]) then [[s[0]] + rest[0]] + rest[1..]
      else [[s[0]]] + rest
  }

  /** Python's blanks. */
  const BLANKS: set<char> := {
    '\U{0009}', '\U{000A}', '\U{000B}', '\U{000C}', '\U{000D}', '\U{001C}', '\U{001D}', '\U{001E}', '\U{001F}', ' ',
    '\U{0085}', '\U{00A0}', '\U{1680}', '\U{2000}', '\U{2001}', '\U{2002}', '\U{2003}', '\U{2004}', '\U{2005}',
    '\U{2006}', '\U{2007}', '\U{2008}', '\U{2009}', '\U{200A}', '\U{2028}', '\U{2029}', '\U{202F}', '\U{205F}',
    '\U{3000}'}

  lemma BlanksAre(c: char)
    ensures IsSpace(c) <==> c in BLANKS
  {
  }

  lemma Blanks()
    ensures IsSpace(' ') && IsSpace('\r') && IsSpace('\n') && IsSpace('\U{00A0}') && !IsSpace(ZERO_WIDTH_SPACE)
  {
  }

  /** Two texts whose blanks and other characters agree have the same words. */
  predicate SameWords(a: string, b: string) {
    |a| == |b| && forall i :: 0 <= i < |a| ==> (IsSpace(a[i]) <==> IsSpace(b[i])) && (!IsSpace(a[i]) ==> a[i] == b[i])
  }

  lemma {:induction false} SameWordsSplit(a: string, b: string)
    requires SameWords(a, b)
    ensures WordsOf(a) == WordsOf(b)
  {
    hide IsSpace;
    if a != "" {
      SameWordsSplit(a[1..], b[1..]);
      assert |a| > 1 ==> a[1] == a[1..][0] && b[1] == b[1..][0];
    }
  }

  lemma {:induction false} SubstituteWords(s: string)
    ensures SameWords(Substitute(s), RemoveChar(s, ZERO_WIDTH_SPACE))
  {
    Blanks();
    hide IsSpace;
    if s != "" {
      SubstituteWords(s[1..]);
    }
  }

  lemma {:induction false} StripLeftWords(s: string)
    ensures WordsOf(StripLeft(s)) == WordsOf(s)
  {
    hide IsSpace;
    if s != "" && IsSpace(s[0]) {
      StripLeftWords(s[1..]);
    }
  }

  lemma {:induction false} TrailingBlank(s: string)
    requires s != "" && IsSpace(s[|s| - 1])
    ensures WordsOf(s) == WordsOf(s[..|s| - 1])
  {
    hide IsSpace;
    var init := s[..|s| - 1];
    if |s| == 1 {
      assert s[1..] == "" && init == "";
    } else {
      TrailingBlank(s[1..]);
      assert s[1..][..|s| - 2] == init[1..];
      if |s| == 2 {
        assert init[1..] == "";
      } else {
        assert init[1] == s[1];
      }
    }
  }

  lemma {:induction false} StripRightWords(s: string)
    ensures WordsOf(StripRight(s)) == WordsOf(s)
  {
    hide IsSpace;
    if s != "" && IsSpace(s[|s| - 1]) {
      StripRightWords(s[..|s| - 1]);
      TrailingBlank(s);
    }
  }

  lemma {:induction false} CollapseWords(s: string)
    ensures WordsOf(Collapse(s)) == WordsOf(s)
    ensures s != "" ==> Collapse(s) != "" && (IsSpace(Collapse(s)[0]) <==> IsSpace(s[0]))
    decreases |s|
  {
    Blanks();
    hide IsSpace;
    if s != "" {
      if IsSpace(s[0]) {
        CollapseWords(StripLeft(s[1..]));
        StripLeftWords(s[1..]);
        assert Collapse(s)[1..] == Collapse(StripLeft(s[1..]));
      } else {
        CollapseWords(s[1..]);
        assert Collapse(s)[1..] == Collapse(s[1..]);
        assert |s| > 1 ==> Collapse(s)[1] == Collapse(s[1..])[0] && s[1] == s[1..][0];
      }
    }
  }

  lemma {:induction false} CleanIsJoined(s: string)
    requires NoZeroWidth(s) && Collapsed(s) && (s != "" ==> !IsSpace(s[|s| - 1]))
    ensures Join(WordsOf(s), " ") == if s != "" && s[0] == ' ' then s[1..] else s
  {
    Blanks();
    hide IsSpace;
    if s != "" {
      var t := s[1..];
      CollapsedTail(s);
      assert t != "" ==> t[|t| - 1] == s[|s| - 1];
      CleanIsJoined(t);
      var rest := WordsOf(t);
      if IsSpace(s[0]) {
        assert t != "" ==> t[0] == s[1] && s[1] != ' ';
      } else if t == "" {
        assert s == [s[0]];
      } else if IsSpace(t[0]) {
        assert t[0] == ' ';
        BlankBeforeWord(t);
        assert ([[s[0]]] + rest)[1..] == rest;
        assert s == [s[0]] + " " + t[1..];
      } else {
        JoinGrown(s[0], rest);
        assert s == [s[0]] + t;
      }
    }
  }

  lemma JoinGrown(c: char, words: seq<string>)
    requires words != []
    ensures Join([[c] + words[0]] + words[1..], " ") == [c] + Join(words, " ")
  {
    var grown := [[c] + words[0]] + words[1..];
    assert grown[1..] == words[1..];
  }

  lemma BlankBeforeWord(t: string)
    requires NoZeroWidth(t) && Collapsed(t) && t != "" && t[0] == ' ' && !IsSpace(t[|t| - 1])
    ensures WordsOf(t) != []
  {
    Blanks();
    hide IsSpace;
    assert |t| > 1 && t[1] != ' ';
    assert t[1..][0] == t[1] && !IsSpace(t[1]);
  }

  /** Cleaning joins the words of the text, its zero-width spaces removed, with single blanks. */
  lemma CleanTextWords(s: string)
    ensures CleanText(s) == Join(WordsOf(RemoveChar(s, ZERO_WIDTH_SPACE)), " ")
  {
    hide IsSpace, Collapse, Substitute, StripLeft, StripRight;
    var a := Substitute(s);
    SubstituteWords(s);
    SameWordsSplit(a, RemoveChar(s, ZERO_WIDTH_SPACE));
    CollapseWords(a);
    StripLeftWords(Collapse(a));
    StripRightWords(StripLeft(Collapse(a)));
    CleanTextIsClean(s);
    Blanks();
    CleanIsJoined(CleanText(s));
  }
}
