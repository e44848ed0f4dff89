/** `preprocess_query`: lower-case the query, delete `string.punctuation`, collapse every run
    of whitespace to one space and strip the ends (`re.sub(r"\s+", " ", q).strip()`), then
    keep the lemmas of the tokens spaCy does not mark as stop words, joined by spaces. The
    spaCy analysis is a parameter. */
module QueryPreprocessing {
  import opened Text

  /** `string.punctuation`: the 32 ASCII punctuation characters. */
  predicate IsPunctuation(c: char) {
    ('!' <= c <= '/') || (':' <= c <= '@') || ('[' <= c <= '`') || ('{' <= c <= '~')
  }

  /** Python whitespace (`str.isspace`, regex `\s`) on ASCII: tab, line feed, vertical tab,
      form feed, carriage return, the separators 0x1C-0x1F and space. */
  predicate IsSpace(c: char) {
    var n := c as int;
    n == 32 || (9 <= n <= 13) || (28 <= n <= 31)
  }

  predicate NoPunctuation(s: string) {
    forall i :: 0 <= i < |s| ==> !IsPunctuation(s[i])
  }

  /** `query.translate(str.maketrans("", "", string.punctuation))`. */
  function RemovePunctuation(s: string): (r: string)
    ensures NoPunctuation(r)
    ensures forall c :: c in r <==> c in s && !IsPunctuation(c)
    ensures |s| == 1 ==> r == (if IsPunctuation(s[0]) then "" else s)
    decreases |s|
  {
    if |s| == 0 then ""
    else (if IsPunctuation(s[0]) then "" else [s[0]]) + RemovePunctuation(s[1..])
  }

  /** Deleting punctuation works piecewise, so the kept characters stay in their order. */
  lemma {:induction false} RemovePunctuationAppend(a: string, b: string)
    ensures RemovePunctuation(a + b) == RemovePunctuation(a) + RemovePunctuation(b)
    decreases |a|
  {
    if |a| > 0 {
      assert (a + b)[1..] == a[1..] + b;
      RemovePunctuationAppend(a[1..], b);
    } else {
      assert a + b == b;
    }
  }

  lemma {:induction false} RemovePunctuationKeeps(s: string)
    requires NoPunctuation(s)
    ensures RemovePunctuation(s) == s
    decreases |s|
  {
    if |s| > 0 {
      RemovePunctuationKeeps(s[1..]);
      assert [s[0]] + s[1..] == s;
    }
  }

  /** No whitespace character sits next to another one. */
  predicate NoDoubleSpace(s: string) {
    forall i :: 0 < i < |s| ==> !SpaceAfterSpace(s, i)
  }

  /** Position `i` holds whitespace right after whitespace. */
  predicate SpaceAfterSpace(s: string, i: int)
    requires 0 < i < |s|
  {
    IsSpace(s[i - 1]) && IsSpace(s[i])
  }

  /** The only whitespace character is the plain space. */
  predicate OnlyPlainSpaces(s: string) {
    forall i :: 0 <= i < |s| && IsSpace(s[i]) ==> s[i] == ' '
  }

  /** What the collapse-and-strip step produces. */
  predicate Clean(s: string) {
    && NoDoubleSpace(s)
    && OnlyPlainSpaces(s)
    && (|s| > 0 ==> !IsSpace(s[0]) && !IsSpace(s[|s| - 1]))
  }

  /** `lstrip()`: drop the leading whitespace. */
  function DropSpaces(s: string): (r: string)
    ensures |r| <= |s| && r == s[|s| - |r|..]
    ensures |r| > 0 ==> !IsSpace(r[0])
    decreases |s|
  {
    if |s| > 0 && IsSpace(s[0]) then DropSpaces(s[1..]) else s
  }

  /** `rstrip()`: drop the trailing whitespace. */
  function StripRight(s: string): (r: string)
    ensures |r| <= |s| && r == s[..|r|]
    ensures |r| > 0 ==> !IsSpace(r[|r| - 1])
    decreases |s|
  {
    if |s| > 0 && IsSpace(s[|s| - 1]) then StripRight(s[..|s| - 1]) else s
  }

  /** `lstrip()` drops only whitespace. */
  lemma {:induction false} DropSpacesDropsSpaces(s: string)
    ensures forall i :: 0 <= i < |s| - |DropSpaces(s)| ==> IsSpace(s[i])
    decreases |s|
  {
    if |s| > 0 && IsSpace(s[0]) {
      DropSpacesDropsSpaces(s[1..]);
      assert forall i :: 0 < i < |s| ==> s[i] == s[1..][i - 1];
    }
  }

  /** `rstrip()` drops only whitespace, so it keeps every character up to the last
      non-space one. */
  lemma {:induction false} StripRightDropsSpaces(s: string)
    ensures forall i :: |StripRight(s)| <= i < |s| ==> IsSpace(s[i])
    decreases |s|
  {
    if |s| > 0 && IsSpace(s[|s| - 1]) {
      StripRightDropsSpaces(s[..|s| - 1]);
    }
  }

  /** `strip()`. */
  function Strip(s: string): string {
    StripRight(DropSpaces(s))
  }

  /** `re.sub(r"\s+", " ", s)`: every maximal run of whitespace becomes one space. */
  function Squeeze(s: string): (r: string)
    ensures |s| > 0 <==> |r| > 0
    ensures |s| > 0 && !IsSpace(s[0]) ==> r[0] == s[0]
    ensures |s| > 0 && IsSpace(s[0]) ==> r[0] == ' '
    decreases |s|
  {
    if |s| == 0 then ""
    else if IsSpace(s[0]) then " " + Squeeze(DropSpaces(s[1..]))
    else [s[0]] + Squeeze(s[1..])
  }

  /** The collapse leaves no two whitespace characters side by side, and only plain spaces. */
  lemma {:induction false} SqueezeCollapses(s: string)
    ensures NoDoubleSpace(Squeeze(s)) && OnlyPlainSpaces(Squeeze(s))
    decreases |s|
  {
    if |s| > 0 {
      var tail := if IsSpace(s[0]) then DropSpaces(s[1..]) else s[1..];
      var r, x := Squeeze(s), Squeeze(tail);
      SqueezeCollapses(tail);
      assert r == [r[0]] + x;
      assert IsSpace(s[0]) && |x| > 0 ==> !IsSpace(x[0]);
      forall i | 0 < i < |r|
        ensures !SpaceAfterSpace(r, i)
      {
        if i > 1 {
          assert r[i - 1] == x[i - 2] && r[i] == x[i - 1];
          assert !SpaceAfterSpace(x, i - 1);
        }
      }
      forall i | 0 < i < |r| && IsSpace(r[i])
        ensures r[i] == ' '
      {
        assert r[i] == x[i - 1];
      }
    }
  }

  /** The longest prefix without whitespace. */
  function TakeWord(s: string): (w: string)
    ensures |w| <= |s| && w == s[..|w|]
    ensures forall i :: 0 <= i < |w| ==> !IsSpace(w[i])
    ensures |w| < |s| ==> IsSpace(s[|w|])
    decreases |s|
  {
    if |s| == 0 || IsSpace(s[0]) then "" else [s[0]] + TakeWord(s[1..])
  }

  /** `s.split()`: the maximal runs of non-whitespace characters, in order. */
  function Words(s: string): (ws: seq<string>)
    ensures forall i :: 0 <= i < |ws| ==> |ws[i]| > 0
    decreases |s|
  {
    var t := DropSpaces(s);
    if |t| == 0 then []
    else
      var w := TakeWord(t);
      [w] + Words(t[|w|..])
  }

  /** Leading whitespace does not change the collapsed and stripped text. */
  lemma StripSqueezeLeading(s: string)
    ensures Strip(Squeeze(s)) == Strip(Squeeze(DropSpaces(s)))
  {
    if |s| > 0 && IsSpace(s[0]) {
      var x := Squeeze(DropSpaces(s[1..]));
      assert DropSpaces(s) == DropSpaces(s[1..]);
      assert DropSpaces(" " + x) == DropSpaces(x) by {
        assert (" " + x)[1..] == x;
      }
      assert DropSpaces(x) == x;
    }
  }

  /** A word in front passes through the collapse unchanged. */
  lemma {:induction false} SqueezeWord(w: string, x: string)
    requires forall i :: 0 <= i < |w| ==> !IsSpace(w[i])
    ensures Squeeze(w + x) == w + Squeeze(x)
    decreases |w|
  {
    if |w| > 0 {
      var wx := w + x;
      assert wx[0] == w[0] && !IsSpace(wx[0]);
      assert wx[1..] == w[1..] + x;
      calc {
        Squeeze(wx);
        [w[0]] + Squeeze(w[1..] + x);
        { SqueezeWord(w[1..], x); }
        [w[0]] + (w[1..] + Squeeze(x));
        { ConcatAssoc([w[0]], w[1..], Squeeze(x)); assert [w[0]] + w[1..] == w; }
        w + Squeeze(x);
      }
    } else {
      assert w + x == x;
    }
  }

  /** Trailing whitespace is only looked for after the last non-space character. */
  lemma {:induction false} StripRightAppend(x: string, y: string)
    requires |StripRight(y)| > 0
    ensures StripRight(x + y) == x + StripRight(y)
    decreases |y|
  {
    var xy := x + y;
    assert xy[|xy| - 1] == y[|y| - 1];
    if IsSpace(y[|y| - 1]) {
      assert xy[..|xy| - 1] == x + y[..|y| - 1];
      StripRightAppend(x, y[..|y| - 1]);
    }
  }

  lemma SplitAt(s: string, k: nat)
    requires k <= |s|
    ensures s == s[..k] + s[k..]
  {
  }

  lemma ConcatAssoc(a: string, b: string, c: string)
    ensures a + (b + c) == a + b + c
  {
  }

  lemma JoinCons(w: string, ws: seq<string>, sep: string)
    requires |ws| > 0
    ensures Join([w] + ws, sep) == w + sep + Join(ws, sep)
  {
    assert ([w] + ws)[1..] == ws;
  }

  /** A word has nothing to collapse or strip. */
  lemma CollapseWord(w: string)
    requires |w| > 0 && forall i :: 0 <= i < |w| ==> !IsSpace(w[i])
    ensures Strip(Squeeze(w)) == w
  {
    SqueezeWord(w, "");
    assert w + "" == w;
    assert DropSpaces(w) == w;
    assert StripRight(w) == w;
  }

  /** A word followed only by whitespace collapses and strips to the word. */
  lemma CollapseWordThenBlank(w: string, rest: string)
    requires |w| > 0 && forall i :: 0 <= i < |w| ==> !IsSpace(w[i])
    requires |rest| > 0 && IsSpace(rest[0]) && |DropSpaces(rest[1..])| == 0
    ensures Strip(Squeeze(w + rest)) == w
  {
    SqueezeWord(w, rest);
    assert Squeeze(rest) == " ";
    assert DropSpaces(w + " ") == w + " ";
    assert (w + " ")[..|w + " "| - 1] == w;
    assert StripRight(w + " ") == StripRight(w);
    assert StripRight(w) == w;
  }

  /** A word followed by whitespace and more words contributes itself and one space. */
  lemma CollapseWordThenWords(w: string, rest: string)
    requires |w| > 0 && forall i :: 0 <= i < |w| ==> !IsSpace(w[i])
    requires |rest| > 0 && IsSpace(rest[0]) && |DropSpaces(rest[1..])| > 0
    ensures Strip(Squeeze(w + rest)) == w + " " + Strip(Squeeze(rest))
  {
    var u := DropSpaces(rest[1..]);
    var x := Squeeze(u);
    assert Squeeze(rest) == " " + x;
    SqueezeWord(w, rest);
    assert x[0] == u[0] && !IsSpace(x[0]);
    assert DropSpaces(x) == x;
    assert |StripRight(x)| > 0 by { StripRightDropsSpaces(x); }
    StripRightAppend(w + " ", x);
    calc {
      Strip(Squeeze(w + rest));
      StripRight(DropSpaces(w + (" " + x)));
      { ConcatAssoc(w, " ", x); }
      StripRight(DropSpaces(w + " " + x));
      StripRight(w + " " + x);
      w + " " + StripRight(x);
      w + " " + StripRight(DropSpaces(x));
      w + " " + Strip(Squeeze(u));
      { assert DropSpaces(rest) == u; StripSqueezeLeading(rest); }
      w + " " + Strip(Squeeze(rest));
    }
  }

  /** After a word, the collapsed rest contributes a separating space and its own collapsed
      and stripped form, or nothing when it is only whitespace. */
  lemma CollapseAfterWord(w: string, rest: string)
    requires |w| > 0 && forall i :: 0 <= i < |w| ==> !IsSpace(w[i])
    requires |rest| > 0 ==> IsSpace(rest[0])
    ensures |Words(rest)| == 0 ==> Strip(Squeeze(w + rest)) == w
    ensures |Words(rest)| > 0 ==> Strip(Squeeze(w + rest)) == w + " " + Strip(Squeeze(rest))
  {
    if |rest| == 0 {
      assert w + rest == w;
      CollapseWord(w);
    } else {
      assert DropSpaces(rest) == DropSpaces(rest[1..]);
      if |DropSpaces(rest[1..])| == 0 {
        CollapseWordThenBlank(w, rest);
      } else {
        CollapseWordThenWords(w, rest);
      }
    }
  }

  /** The first word of a text that is not all whitespace, and what follows it. */
  lemma FirstWord(s: string) returns (w: string, rest: string)
    requires |DropSpaces(s)| > 0
    ensures |w| > 0 && forall i :: 0 <= i < |w| ==> !IsSpace(w[i])
    ensures |rest| > 0 ==> IsSpace(rest[0])
    ensures |rest| < |s|
    ensures Words(s) == [w] + Words(rest)
    ensures Strip(Squeeze(s)) == Strip(Squeeze(w + rest))
  {
    var t := DropSpaces(s);
    w := TakeWord(t);
    rest := t[|w|..];
    assert t == w + rest by { SplitAt(t, |w|); }
    assert Words(s) == [w] + Words(rest);
    assert Strip(Squeeze(s)) == Strip(Squeeze(t)) by { StripSqueezeLeading(s); }
  }

  /** The collapse-and-strip step equals `" ".join(s.split())`: the words of the text joined by
      single spaces. */
  lemma {:induction false} CollapseIsJoinedWords(s: string)
    ensures Strip(Squeeze(s)) == Join(Words(s), " ")
    decreases |s|
  {
    if |DropSpaces(s)| == 0 {
      StripSqueezeLeading(s);
      assert Words(s) == [];
    } else {
      var w, rest := FirstWord(s);
      CollapseAfterWord(w, rest);
      if |Words(rest)| == 0 {
        calc {
          Strip(Squeeze(s));
          w;
          Join([w], " ");
          { assert [w] + Words(rest) == [w]; }
          Join(Words(s), " ");
        }
      } else {
        CollapseIsJoinedWords(rest);
        JoinCons(w, Words(rest), " ");
      }
    }
  }

  /** Dropping the first character of a collapsed text leaves a collapsed text. */
  lemma CollapsedTail(s: string)
    requires |s| > 0 && NoDoubleSpace(s) && OnlyPlainSpaces(s)
    ensures NoDoubleSpace(s[1..]) && OnlyPlainSpaces(s[1..])
  {
    var tail := s[1..];
    assert forall i :: 0 <= i < |tail| ==> tail[i] == s[i + 1];
    forall i | 0 < i < |tail|
      ensures !SpaceAfterSpace(tail, i)
    {
      assert !SpaceAfterSpace(s, i + 1);
    }
  }

  /** A text without whitespace runs or whitespace other than the plain space is left alone by
      the collapse. */
  lemma {:induction false} SqueezeKeepsCollapsed(s: string)
    requires NoDoubleSpace(s) && OnlyPlainSpaces(s)
    ensures Squeeze(s) == s
    decreases |s|
  {
    if |s| > 0 {
      CollapsedTail(s);
      SqueezeKeepsCollapsed(s[1..]);
      if IsSpace(s[0]) {
        SqueezeKeepsSpace(s);
      } else {
        SqueezeKeepsChar(s);
      }
    }
  }

  lemma SqueezeKeepsSpace(s: string)
    requires |s| > 0 && IsSpace(s[0]) && NoDoubleSpace(s) && OnlyPlainSpaces(s)
    requires Squeeze(s[1..]) == s[1..]
    ensures Squeeze(s) == s
  {
    var tail := s[1..];
    assert s[0] == ' ';
    assert |tail| > 0 ==> !IsSpace(tail[0]) by {
      if |tail| > 0 {
        assert tail[0] == s[1];
        assert !SpaceAfterSpace(s, 1);
      }
    }
    assert DropSpaces(tail) == tail;
    assert [s[0]] + tail == s;
  }

  lemma SqueezeKeepsChar(s: string)
    requires |s| > 0 && !IsSpace(s[0])
    requires Squeeze(s[1..]) == s[1..]
    ensures Squeeze(s) == s
  {
    assert [s[0]] + s[1..] == s;
  }

  /** Stripping text that neither starts nor ends with whitespace changes nothing. */
  lemma StripKeepsClean(s: string)
    requires Clean(s)
    ensures Strip(s) == s
  {
    assert DropSpaces(s) == s;
    assert StripRight(s) == s;
  }

  /** Every character of `s` satisfies `p`. */
  predicate All(s: string, p: char -> bool) {
    forall i :: 0 <= i < |s| ==> p(s[i])
  }

  /** The collapse only ever writes characters of its input and plain spaces. */
  lemma {:induction false} SqueezeKeepsClass(s: string, p: char -> bool)
    requires All(s, p) && p(' ')
    ensures All(Squeeze(s), p)
    decreases |s|
  {
    if |s| > 0 {
      var tail := if IsSpace(s[0]) then DropSpaces(s[1..]) else s[1..];
      assert All(tail, p) by {
        forall i | 0 <= i < |tail|
          ensures p(tail[i])
        {
          assert tail[i] == s[|s| - |tail| + i];
        }
      }
      SqueezeKeepsClass(tail, p);
      var r := Squeeze(s);
      assert r == [r[0]] + Squeeze(tail);
      forall i | 0 <= i < |r|
        ensures p(r[i])
      {
        if i > 0 {
          assert r[i] == Squeeze(tail)[i - 1];
        }
      }
    }
  }

  /** `strip()` of a collapsed text is a piece of it that neither starts nor ends with
      whitespace. */
  lemma StripPiece(x: string) returns (lo: nat, hi: nat)
    ensures lo <= hi <= |x| && Strip(x) == x[lo..hi]
    ensures lo < hi ==> !IsSpace(x[lo]) && !IsSpace(x[hi - 1])
  {
    var d := DropSpaces(x);
    var r := StripRight(d);
    lo, hi := |x| - |d|, |x| - |d| + |r|;
    assert d == x[lo..];
    assert r == d[..|r|];
  }

  /** Stripping a collapsed text leaves a clean one, of the same character class. */
  lemma StripIsClean(x: string, p: char -> bool)
    requires NoDoubleSpace(x) && OnlyPlainSpaces(x)
    ensures Clean(Strip(x))
    ensures All(x, p) ==> All(Strip(x), p)
  {
    var lo, hi := StripPiece(x);
    SliceKeeps(x, lo, hi, p);
  }

  /** The collapse-and-strip step is clean, and keeps any class of characters that holds the
      plain space. */
  lemma CollapseIsClean(s: string, p: char -> bool)
    ensures Clean(Strip(Squeeze(s)))
    ensures All(s, p) && p(' ') ==> All(Strip(Squeeze(s)), p)
  {
    SqueezeCollapses(s);
    if All(s, p) && p(' ') {
      SqueezeKeepsClass(s, p);
    }
    StripIsClean(Squeeze(s), p);
  }

  /** Any piece of a collapsed text is collapsed, and keeps the text's character class. */
  lemma SliceKeeps(x: string, lo: nat, hi: nat, p: char -> bool)
    requires lo <= hi <= |x|
    ensures NoDoubleSpace(x) ==> NoDoubleSpace(x[lo..hi])
    ensures OnlyPlainSpaces(x) ==> OnlyPlainSpaces(x[lo..hi])
    ensures All(x, p) ==> All(x[lo..hi], p)
  {
    var y := x[lo..hi];
    assert forall i :: 0 <= i < |y| ==> y[i] == x[lo + i];
    if NoDoubleSpace(x) {
      forall i | 0 < i < |y|
        ensures !SpaceAfterSpace(y, i)
      {
        assert !SpaceAfterSpace(x, lo + i);
      }
    }
  }

  /** Lower-cased text without punctuation. */
  predicate Plain(c: char) {
    !IsUpper(c) && !IsPunctuation(c)
  }

  /** Everything `preprocess_query` does before spaCy: lower-case, delete punctuation,
      collapse whitespace runs and strip. */
  function Normalize(q: string): (r: string)
    ensures Clean(r)
    ensures NoUpper(r) && NoPunctuation(r)
    ensures r == Join(Words(RemovePunctuation(Lower(q))), " ")
  {
    var low := Lower(q);
    var bare := RemovePunctuation(low);
    assert All(bare, Plain) by {
      forall i | 0 <= i < |bare|
        ensures Plain(bare[i])
      {
        assert bare[i] in bare;
      }
    }
    CollapseIsClean(bare, Plain);
    CollapseIsJoinedWords(bare);
    Strip(Squeeze(bare))
  }

  /** Normalising a normalised query changes nothing. */
  lemma NormalizeIdempotent(q: string)
    ensures Normalize(Normalize(q)) == Normalize(q)
  {
    var n := Normalize(q);
    LowerKeepsLowercase(n);
    RemovePunctuationKeeps(n);
    SqueezeKeepsCollapsed(n);
    StripKeepsClean(n);
  }

  /** What spaCy reports for one token: its lemma (base form) and whether it is a stop word. */
  datatype Token = Token(baseForm: string, isStop: bool)

  /** `[token.lemma_ for token in doc if not token.is_stop]`. */
  function KeptLemmas(doc: seq<Token>): (r: seq<string>)
    ensures |r| <= |doc|
    ensures forall i :: 0 <= i < |r| ==> exists j :: 0 <= j < |doc| && !doc[j].isStop && r[i] == doc[j].baseForm
    ensures (forall j :: 0 <= j < |doc| ==> !doc[j].isStop) ==> |r| == |doc|
    ensures (forall j :: 0 <= j < |doc| ==> doc[j].isStop) ==> r == []
    decreases |doc|
  {
    if |doc| == 0 then []
    else
      var rest := KeptLemmas(doc[1..]);
      assert forall i :: 0 <= i < |rest| ==> exists j :: 0 <= j < |doc| && !doc[j].isStop && rest[i] == doc[j].baseForm by {
        forall i | 0 <= i < |rest|
          ensures exists j :: 0 <= j < |doc| && !doc[j].isStop && rest[i] == doc[j].baseForm
        {
          var j :| 0 <= j < |doc[1..]| && !doc[1..][j].isStop && rest[i] == doc[1..][j].baseForm;
          assert doc[j + 1] == doc[1..][j];
        }
      }
      if doc[0].isStop then rest else [doc[0].baseForm] + rest
  }

  /** Filtering works token by token: the lemmas kept from two documents are the lemmas kept
      from each, in order. */
  lemma {:induction false} KeptLemmasAppend(a: seq<Token>, b: seq<Token>)
    ensures KeptLemmas(a + b) == KeptLemmas(a) + KeptLemmas(b)
    decreases |a|
  {
    if |a| == 0 {
      assert a + b == b;
    } else {
      assert (a + b)[0] == a[0];
      assert (a + b)[1..] == a[1..] + b;
      KeptLemmasAppend(a[1..], b);
    }
  }

  /** `preprocess_query`, with spaCy's tokenisation and lemmatisation as the parameter `nlp`. */
  function PreprocessQuery(query: string, nlp: string -> seq<Token>): (r: string)
    ensures var doc := nlp(Normalize(query));
      (forall j :: 0 <= j < |doc| ==> doc[j].isStop) ==> r == ""
    ensures var doc := nlp(Normalize(query));
      |doc| == 1 && !doc[0].isStop ==> r == doc[0].baseForm
    ensures r == Join(KeptLemmas(nlp(Normalize(query))), " ")
  {
    var doc := nlp(Normalize(query));
    Join(KeptLemmas(doc), " ")
  }

  /** When some lemma is kept and no kept lemma holds a space, splitting the result on spaces
      gives back the kept lemmas, in the order of their tokens. */
  lemma PreprocessSplitsBack(query: string, nlp: string -> seq<Token>)
    requires var kept := KeptLemmas(nlp(Normalize(query)));
      |kept| >= 1 && forall i :: 0 <= i < |kept| ==> ' ' !in kept[i]
    ensures Split(PreprocessQuery(query, nlp), ' ') == KeptLemmas(nlp(Normalize(query)))
  {
    assert " " == [' '];
    SplitJoin(KeptLemmas(nlp(Normalize(query))), ' ');
  }

  /** The analysis only ever sees the normalised text, so preprocessing a normalised query gives
      the same result as preprocessing the raw one. */
  lemma PreprocessNormalized(query: string, nlp: string -> seq<Token>)
    ensures PreprocessQuery(Normalize(query), nlp) == PreprocessQuery(query, nlp)
  {
    NormalizeIdempotent(query);
  }
}
