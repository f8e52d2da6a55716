/**
 * String helpers used by the feed controller: whitespace trimming, the
 * "trim, collapse whitespace, split on a space" idiom that turns a name
 * argument into a list of feed names, JavaScript's `String.prototype.split`
 * on a single character, ASCII lower-casing, substring search and the
 * decimal rendering of a number.
 */
module Text {

  /** The characters `\s` matches, restricted to ASCII. */
  predicate IsSpace(c: char) {
    c == ' ' || c == '\t' || c == '\n' || c == '\r' || c == '\U{B}' || c == '\U{C}'
  }

  predicate NoSpace(s: string) {
    forall k :: 0 <= k < |s| ==> !IsSpace(s[k])
  }

  function LowerChar(c: char): char {
    if 'A' <= c <= 'Z' then (c as int + 32) as char else c
  }

  /** `toLowerCase`, on ASCII letters only. */
  function Lower(s: string): (r: string)
    ensures |r| == |s|
  {
    if s == [] then [] else [LowerChar(s[0])] + Lower(s[1..])
  }

  /** Lower-casing works character by character. */
  lemma {:induction false} LowerChars(s: string)
    ensures forall k :: 0 <= k < |s| ==> Lower(s)[k] == LowerChar(s[k])
  {
    if s != [] {
      LowerChars(s[1..]);
      assert Lower(s) == [LowerChar(s[0])] + Lower(s[1..]);
    }
  }

  /** A string with no upper-case ASCII letter is its own lower case. */
  lemma LowerOfLower(s: string)
    requires forall k :: 0 <= k < |s| ==> !('A' <= s[k] <= 'Z')
    ensures Lower(s) == s
  {
    LowerChars(s);
  }

  /** `hay.indexOf(needle) > -1`. */
  predicate Contains(hay: string, needle: string)
    decreases |hay|
  {
    needle <= hay || (hay != [] && Contains(hay[1..], needle))
  }

  /** A text found in `b` is found in `a + b`. */
  lemma {:induction false} ContainsAfter(a: string, b: string, needle: string)
    requires Contains(b, needle)
    ensures Contains(a + b, needle)
  {
    if a == [] {
      assert a + b == b;
    } else {
      assert (a + b)[1..] == a[1..] + b;
      ContainsAfter(a[1..], b, needle);
    }
  }

  /** A text that starts some piece, lower-cased, is found in the lower-cased joined pieces. */
  lemma {:induction false} ContainsLowerJoined(pieces: seq<string>, c: char, k: nat, needle: string)
    requires k < |pieces| && needle <= Lower(pieces[k])
    ensures Contains(Lower(Join(pieces, c)), needle)
  {
    if |pieces| > 1 {
      var rest := Join(pieces[1..], c);
      var head := pieces[0] + [c];
      assert Join(pieces, c) == head + rest;
      LowerAppend(head, rest);
      if k == 0 {
        LowerAppend(pieces[0], [c]);
      } else {
        ContainsLowerJoined(pieces[1..], c, k - 1, needle);
        ContainsAfter(Lower(head), Lower(rest), needle);
      }
    }
  }

  /** `s.split(c)`: the pieces between occurrences of `c`; never empty. */
  function SplitOn(s: string, c: char): (r: seq<string>)
    ensures |r| >= 1
  {
    if s == [] then [""]
    else
      var rest := SplitOn(s[1..], c);
      if s[0] == c then [""] + rest else [[s[0]] + rest[0]] + rest[1..]
  }

  /** No piece holds the separator. */
  lemma {:induction false} SplitOnDropsSeparator(s: string, c: char)
    ensures forall k :: 0 <= k < |SplitOn(s, c)| ==> c !in SplitOn(s, c)[k]
  {
    if s != [] {
      SplitOnDropsSeparator(s[1..], c);
      var rest := SplitOn(s[1..], c);
      if s[0] != c {
        assert c !in [s[0]] + rest[0];
        assert SplitOn(s, c)[1..] == rest[1..];
      }
    }
  }

  /** `pieces.join(c)`. */
  function Join(pieces: seq<string>, c: char): string
  {
    if pieces == [] then ""
    else if |pieces| == 1 then pieces[0]
    else pieces[0] + [c] + Join(pieces[1..], c)
  }

  /** Splitting loses nothing: joining the pieces back gives the input. */
  lemma {:induction false} JoinSplit(s: string, c: char)
    ensures Join(SplitOn(s, c), c) == s
  {
    if s != [] {
      JoinSplit(s[1..], c);
      var rest := SplitOn(s[1..], c);
      if s[0] != c {
        if |rest| == 1 {
          assert SplitOn(s, c) == [[s[0]] + rest[0]];
        } else {
          assert SplitOn(s, c)[1..] == rest[1..];
        }
      }
    }
  }

  /** Removes leading whitespace: what is left is a suffix, and all that was dropped is whitespace. */
  function TrimLeft(s: string): (r: string)
    ensures |r| <= |s| && r == s[|s| - |r|..]
    ensures forall k :: 0 <= k < |s| - |r| ==> IsSpace(s[k])
    ensures r == [] || !IsSpace(r[0])
  {
    if s != [] && IsSpace(s[0]) then TrimLeft(s[1..]) else s
  }

  /** Removes trailing whitespace: what is left is a prefix, and all that was dropped is whitespace. */
  function TrimRight(s: string): (r: string)
    ensures |r| <= |s| && r == s[..|r|]
    ensures forall k :: |r| <= k < |s| ==> IsSpace(s[k])
    ensures r == [] || !IsSpace(r[|r| - 1])
  {
    if s != [] && IsSpace(s[|s| - 1]) then TrimRight(s[..|s| - 1]) else s
  }

  /** `trimStr`: strip whitespace from both ends. */
  function TrimStr(s: string): (r: string)
    ensures r == [] || (!IsSpace(r[0]) && !IsSpace(r[|r| - 1]))
  {
    var t := TrimRight(s);
    var r := TrimLeft(t);
    assert r != [] ==> r[|r| - 1] == t[|t| - 1];
    r
  }

  /** `replace(/\s+/g, " ")`: every maximal run of whitespace becomes one space. */
  function Collapse(s: string): (r: string)
    decreases |s|
  {
    if s == [] then []
    else if IsSpace(s[0]) then [' '] + Collapse(TrimLeft(s[1..]))
    else [s[0]] + Collapse(s[1..])
  }

  /** The non-whitespace characters of `s`, in order. */
  function Letters(s: string): string
  {
    if s == [] then [] else (if IsSpace(s[0]) then [] else [s[0]]) + Letters(s[1..])
  }

  function Concat(pieces: seq<string>): string
  {
    if pieces == [] then [] else pieces[0] + Concat(pieces[1..])
  }

  /** The name list `reload` and `removeFeed` build from their string argument. */
  function SplitNames(s: string): seq<string>
  {
    SplitOn(Collapse(TrimStr(s)), ' ')
  }

  /** Removes every occurrence of `c`. */
  function Without(s: string, c: char): string
  {
    if s == [] then [] else (if s[0] == c then [] else [s[0]]) + Without(s[1..], c)
  }

  lemma {:induction false} LettersAppend(a: string, b: string)
    ensures Letters(a + b) == Letters(a) + Letters(b)
  {
    if a == [] {
      assert a + b == b;
    } else {
      assert (a + b)[1..] == a[1..] + b;
      LettersAppend(a[1..], b);
    }
  }

  lemma {:induction false} LettersOfSpaces(s: string)
    requires forall k :: 0 <= k < |s| ==> IsSpace(s[k])
    ensures Letters(s) == []
  {
    if s != [] { LettersOfSpaces(s[1..]); }
  }

  /** Trimming drops whitespace only. */
  lemma LettersTrim(s: string)
    ensures Letters(TrimStr(s)) == Letters(s)
  {
    LettersTrimRight(s);
    LettersTrimLeft(TrimRight(s));
  }

  lemma LettersTrimRight(s: string)
    ensures Letters(TrimRight(s)) == Letters(s)
  {
    var r := TrimRight(s);
    var t := s[|r|..];
    assert s == r + t;
    assert forall k :: 0 <= k < |t| ==> IsSpace(t[k]);
    LettersAppend(r, t);
    LettersOfSpaces(t);
  }

  lemma LettersTrimLeft(s: string)
    ensures Letters(TrimLeft(s)) == Letters(s)
  {
    var l := TrimLeft(s);
    var t := s[..|s| - |l|];
    assert s == t + l;
    assert forall k :: 0 <= k < |t| ==> IsSpace(t[k]);
    LettersAppend(t, l);
    LettersOfSpaces(t);
  }

  /** Collapsing whitespace keeps every other character, in order. */
  lemma {:induction false} LettersCollapse(s: string)
    ensures Letters(Collapse(s)) == Letters(s)
    decreases |s|
  {
    if s != [] {
      if IsSpace(s[0]) {
        var t := TrimLeft(s[1..]);
        LettersCollapse(t);
        var n := |s[1..]| - |t|;
        assert s[1..] == s[1..][..n] + t;
        LettersAppend(s[1..][..n], t);
        LettersOfSpaces(s[1..][..n]);
        assert ([' '] + Collapse(t))[1..] == Collapse(t);
      } else {
        LettersCollapse(s[1..]);
        assert ([s[0]] + Collapse(s[1..]))[1..] == Collapse(s[1..]);
      }
    }
  }

  /** The whitespace left by `Collapse` is single spaces, never two in a row. */
  predicate Collapsed(u: string)
  {
    && (forall k :: 0 <= k < |u| && IsSpace(u[k]) ==> u[k] == ' ')
    && (forall k :: 0 <= k < |u| - 1 ==> !(u[k] == ' ' && u[k + 1] == ' '))
  }

  lemma {:induction false} CollapseShape(s: string)
    ensures Collapsed(Collapse(s))
    ensures |Collapse(s)| == 0 <==> |s| == 0
    ensures s != [] ==> (Collapse(s)[0] == ' ' <==> IsSpace(s[0]))
    ensures s != [] ==> (Collapse(s)[|Collapse(s)| - 1] == ' ' <==> IsSpace(s[|s| - 1]))
    decreases |s|
  {
    if s != [] {
      var r := Collapse(s);
      if IsSpace(s[0]) {
        var t := TrimLeft(s[1..]);
        CollapseShape(t);
        var n := |s[1..]| - |t|;
        if t == [] {
          assert IsSpace(s[|s| - 1]) by { if |s| > 1 { assert IsSpace(s[1..][|s| - 2]); } }
        } else {
          assert s[|s| - 1] == t[|t| - 1];
        }
      } else {
        CollapseShape(s[1..]);
        if s[1..] != [] {
          assert s[|s| - 1] == s[1..][|s[1..]| - 1];
        }
      }
    }
  }

  lemma FirstPiece(v: string, c: char)
    ensures SplitOn(v, c)[0] == [] <==> (v == [] || v[0] == c)
  {
  }

  /** Every piece after the first is non-empty when the text neither ends with `c` nor holds `c` twice in a row. */
  lemma {:induction false} LaterPiecesNonEmpty(u: string, c: char)
    requires u == [] || u[|u| - 1] != c
    requires forall k :: 0 <= k < |u| - 1 ==> !(u[k] == c && u[k + 1] == c)
    ensures forall k :: 1 <= k < |SplitOn(u, c)| ==> SplitOn(u, c)[k] != []
  {
    if u != [] {
      var rest := SplitOn(u[1..], c);
      LaterPiecesNonEmpty(u[1..], c);
      if u[0] == c {
        assert u[1..] != [] && u[1] != c;
        FirstPiece(u[1..], c);
        assert SplitOn(u, c) == [""] + rest;
      } else {
        assert SplitOn(u, c)[1..] == rest[1..];
      }
    }
  }

  /** The pieces hold only characters of the text. */
  lemma {:induction false} PiecesFromText(u: string, c: char)
    ensures forall k, j :: 0 <= k < |SplitOn(u, c)| && 0 <= j < |SplitOn(u, c)[k]| ==> SplitOn(u, c)[k][j] in u
  {
    if u != [] {
      PiecesFromText(u[1..], c);
      var rest := SplitOn(u[1..], c);
      if u[0] != c {
        assert SplitOn(u, c)[1..] == rest[1..];
        forall j | 0 <= j < |SplitOn(u, c)[0]| ensures SplitOn(u, c)[0][j] in u {
          if j > 0 { assert SplitOn(u, c)[0][j] == rest[0][j - 1]; }
        }
      }
    }
  }

  lemma {:induction false} ConcatSplit(u: string, c: char)
    ensures Concat(SplitOn(u, c)) == Without(u, c)
  {
    if u != [] {
      ConcatSplit(u[1..], c);
      var rest := SplitOn(u[1..], c);
      if u[0] == c {
        assert ([""] + rest)[1..] == rest;
      } else {
        var r := SplitOn(u, c);
        assert r[1..] == rest[1..];
        calc {
          Concat(r);
          ([u[0]] + rest[0]) + Concat(rest[1..]);
          [u[0]] + (rest[0] + Concat(rest[1..]));
          [u[0]] + Concat(rest);
        }
      }
    }
  }

  lemma {:induction false} WithoutSpace(u: string)
    requires forall k :: 0 <= k < |u| && IsSpace(u[k]) ==> u[k] == ' '
    ensures Without(u, ' ') == Letters(u)
  {
    if u != [] { WithoutSpace(u[1..]); }
  }

  /** The longest prefix of `t` holding no whitespace. */
  function Word(t: string): (r: string)
    ensures r <= t && NoSpace(r)
    ensures |r| == |t| || IsSpace(t[|r|])
    ensures t != [] && !IsSpace(t[0]) ==> r != []
  {
    if t == [] || IsSpace(t[0]) then [] else [t[0]] + Word(t[1..])
  }

  /** The words of `s`: its maximal runs of non-whitespace characters, in order. */
  function Words(s: string): seq<string>
    decreases |s|
  {
    var t := TrimLeft(s);
    if t == [] then []
    else
      var w := Word(t);
      [w] + Words(t[|w|..])
  }

  /** A text that starts with a non-whitespace character begins with its first word. */
  lemma {:induction false} WordsStart(t: string)
    requires t != [] && !IsSpace(t[0])
    ensures Words(t) == [Word(t)] + Words(t[|Word(t)|..])
  {
    assert TrimLeft(t) == t;
  }

  /** A text that starts with a word ends it at the first whitespace and goes on with the words of the rest. */
  lemma {:induction false} WordsCons(w: string, sp: string, rest: string)
    requires w != [] && NoSpace(w)
    requires sp != [] && forall k :: 0 <= k < |sp| ==> IsSpace(sp[k])
    ensures Words(w + sp + rest) == [w] + Words(rest)
  {
    var x := w + (sp + rest);
    assert w + sp + rest == x;
    WordsStart(x);
    WordOfWordSpace(w, sp + rest);
    assert x[|w|..] == sp + rest;
    WordsAfterSpaces(sp, rest);
  }

  lemma {:induction false} WordOfWordSpace(w: string, y: string)
    requires NoSpace(w) && (y == [] || IsSpace(y[0]))
    ensures Word(w + y) == w
  {
    if w == [] {
      assert w + y == y;
    } else {
      assert (w + y)[1..] == w[1..] + y;
      WordOfWordSpace(w[1..], y);
      assert [w[0]] + w[1..] == w;
    }
  }

  /** Whitespace in front of a text changes none of its words. */
  lemma {:induction false} WordsAfterSpaces(sp: string, rest: string)
    requires forall k :: 0 <= k < |sp| ==> IsSpace(sp[k])
    ensures Words(sp + rest) == Words(rest)
  {
    TrimLeftAfterSpaces(sp, rest);
    WordsTrimLeft(rest);
  }

  lemma {:induction false} TrimLeftAfterSpaces(sp: string, rest: string)
    requires forall k :: 0 <= k < |sp| ==> IsSpace(sp[k])
    ensures TrimLeft(sp + rest) == TrimLeft(rest)
  {
    if sp == [] {
      assert sp + rest == rest;
    } else {
      assert (sp + rest)[1..] == sp[1..] + rest;
      TrimLeftAfterSpaces(sp[1..], rest);
    }
  }

  lemma {:induction false} WordsTrimLeft(s: string)
    ensures Words(TrimLeft(s)) == Words(s)
  {
    var t := TrimLeft(s);
    assert TrimLeft(t) == t;
  }

  /** Whitespace after a text changes none of its words. */
  lemma {:induction false} WordsBeforeSpaces(a: string, sp: string)
    requires forall k :: 0 <= k < |sp| ==> IsSpace(sp[k])
    ensures Words(a + sp) == Words(a)
    decreases |a|
  {
    var t := TrimLeft(a);
    WordsTrimLeft(a);
    WordsTrimLeft(a + sp);
    if t == [] {
      TrimLeftAfterSpaces(a, sp);
      TrimLeftOfSpaces(sp);
    } else {
      TrimLeftBefore(a, sp);
      var w := Word(t);
      WordsBeforeSpaces(t[|w|..], sp);
      WordsBeforeSpacesStep(t, sp);
    }
  }

  /** The step of `WordsBeforeSpaces`: a text's first word is kept and the whitespace moves on to the rest. */
  lemma {:induction false} WordsBeforeSpacesStep(t: string, sp: string)
    requires t != [] && !IsSpace(t[0])
    requires forall k :: 0 <= k < |sp| ==> IsSpace(sp[k])
    requires Words(t[|Word(t)|..] + sp) == Words(t[|Word(t)|..])
    ensures Words(t + sp) == Words(t)
  {
    var w := Word(t);
    WordBefore(t, sp);
    WordsStart(t);
    WordsStart(t + sp);
    SliceAppend(t, sp, |w|);
  }

  lemma TrimLeftOfSpaces(s: string)
    requires forall k :: 0 <= k < |s| ==> IsSpace(s[k])
    ensures TrimLeft(s) == []
  {
  }

  lemma {:induction false} TrimLeftBefore(a: string, b: string)
    requires TrimLeft(a) != []
    ensures TrimLeft(a + b) == TrimLeft(a) + b
  {
    if a != [] && IsSpace(a[0]) {
      assert (a + b)[1..] == a[1..] + b;
      TrimLeftBefore(a[1..], b);
    }
  }

  lemma {:induction false} WordBefore(t: string, sp: string)
    requires forall k :: 0 <= k < |sp| ==> IsSpace(sp[k])
    ensures Word(t + sp) == Word(t)
  {
    if t == [] {
      assert t + sp == sp;
    } else if !IsSpace(t[0]) {
      assert (t + sp)[1..] == t[1..] + sp;
      WordBefore(t[1..], sp);
    }
  }

  /** On a text that starts and ends with a non-whitespace character, collapsing and splitting gives its words. */
  lemma {:induction false} SplitCollapsedWords(t: string)
    requires t != [] && !IsSpace(t[0]) && !IsSpace(t[|t| - 1])
    ensures SplitOn(Collapse(t), ' ') == Words(t)
    decreases |t|
  {
    var w := Word(t);
    if w == t {
      SplitCollapsedOneWord(t);
    } else {
      var x := t[|w|..];
      WordThenRest(t);
      SpacedRest(x);
      SplitCollapsedWords(TrimLeft(x[1..]));
      SplitCollapsedMore(w, x);
    }
  }

  /** A text is its first word followed by the rest, which, when there is one, starts with whitespace and ends as the text does. */
  lemma {:induction false} WordThenRest(t: string)
    requires t != [] && Word(t) != t
    ensures var x := t[|Word(t)|..];
      t == Word(t) + x && x != [] && IsSpace(x[0]) && x[|x| - 1] == t[|t| - 1]
  {
    var w := Word(t);
    PrefixSuffix(t, |w|);
    assert w == t[..|w|];
  }

  lemma {:induction false} SplitCollapsedOneWord(t: string)
    requires t != [] && !IsSpace(t[0]) && Word(t) == t
    ensures SplitOn(Collapse(t), ' ') == Words(t)
  {
    CollapseWord(t);
    assert ' ' !in t by { assert IsSpace(' '); }
    SplitOnAbsent(t, ' ');
    WordsStart(t);
    assert Words(t[|t|..]) == [];
  }

  /** A word, whitespace, and a rest whose collapsed split is its words. */
  lemma {:induction false} SplitCollapsedMore(w: string, x: string)
    requires w != [] && NoSpace(w) && x != [] && IsSpace(x[0])
    requires SplitOn(Collapse(TrimLeft(x[1..])), ' ') == Words(TrimLeft(x[1..]))
    ensures SplitOn(Collapse(w + x), ' ') == Words(w + x)
  {
    SplitCollapsedStep(w, x);
    WordOfWordSpace(w, x);
    WordsStart(w + x);
    SliceAppend(w, x, |w|);
    assert w[|w|..] == [];
  }

  /** After a word, a gap that does not reach the end leaves a text that starts and ends with non-whitespace. */
  lemma {:induction false} SpacedRest(x: string)
    requires x != [] && IsSpace(x[0]) && !IsSpace(x[|x| - 1])
    ensures var r := TrimLeft(x[1..]); r != [] && !IsSpace(r[0]) && !IsSpace(r[|r| - 1]) && |r| < |x|
  {
    var r := TrimLeft(x[1..]);
    assert r[|r| - 1] == x[|x| - 1];
  }

  lemma {:induction false} SplitCollapsedStep(w: string, x: string)
    requires NoSpace(w) && x != [] && IsSpace(x[0])
    requires SplitOn(Collapse(TrimLeft(x[1..])), ' ') == Words(TrimLeft(x[1..]))
    ensures SplitOn(Collapse(w + x), ' ') == [w] + Words(x)
  {
    CollapseAfterWord(w, x);
    assert ' ' !in w by { assert IsSpace(' '); }
    var r := TrimLeft(x[1..]);
    CollapseSpaceStart(x);
    AppendAssoc(w, [' '], Collapse(r));
    SplitOnAfter(w, ' ', Collapse(r));
    TrimLeftSpaceStart(x);
    WordsTrimLeft(x);
  }

  lemma {:induction false} TrimLeftSpaceStart(x: string)
    requires x != [] && IsSpace(x[0])
    ensures TrimLeft(x) == TrimLeft(x[1..])
  {
  }

  lemma SliceAppend(a: string, b: string, n: nat)
    requires n <= |a|
    ensures (a + b)[n..] == a[n..] + b
  {
  }

  lemma PrefixSuffix(s: string, n: nat)
    requires n <= |s|
    ensures s == s[..n] + s[n..]
  {
  }

  lemma AppendAssoc(a: string, b: string, c: string)
    ensures a + (b + c) == a + b + c
  {
  }

  lemma {:induction false} CollapseSpaceStart(x: string)
    requires x != [] && IsSpace(x[0])
    ensures Collapse(x) == [' '] + Collapse(TrimLeft(x[1..]))
  {
  }

  lemma {:induction false} CollapseAfterWord(w: string, x: string)
    requires NoSpace(w)
    ensures Collapse(w + x) == w + Collapse(x)
  {
    if w == [] {
      assert w + x == x;
    } else {
      assert (w + x)[1..] == w[1..] + x;
      CollapseAfterWord(w[1..], x);
      assert [w[0]] + (w[1..] + Collapse(x)) == w + Collapse(x);
    }
  }

  /** A blank argument yields the single empty name `""`. */
  lemma SplitNamesBlank(s: string)
    requires TrimStr(s) == []
    ensures SplitNames(s) == [""]
  {
  }

  /**
   * A non-blank argument yields the whitespace-separated words of `s`:
   * each name is non-empty and holds no whitespace, and together, in order,
   * they hold exactly the non-whitespace characters of `s`.
   */
  lemma SplitNamesWords(s: string)
    requires TrimStr(s) != []
    ensures forall k :: 0 <= k < |SplitNames(s)| ==> SplitNames(s)[k] != [] && NoSpace(SplitNames(s)[k])
    ensures Concat(SplitNames(s)) == Letters(s)
    ensures SplitNames(s) == Words(s)
  {
    SplitNamesAreWords(s);
    SplitNamesKeepLetters(s);
    SplitNamesAreWordsOf(s);
  }

  /**
   * A name argument that starts with a word, then whitespace, then more
   * names: the first name is that word and the rest are the rest's names.
   */
  lemma SplitNamesCons(w: string, sp: string, rest: string)
    requires w != [] && NoSpace(w)
    requires sp != [] && forall k :: 0 <= k < |sp| ==> IsSpace(sp[k])
    requires TrimStr(rest) != []
    ensures SplitNames(w + sp + rest) == [w] + SplitNames(rest)
  {
    var s := w + sp + rest;
    assert s == w + (sp + rest);
    NotBlank(w, sp + rest);
    SplitNamesAreWordsOf(s);
    SplitNamesAreWordsOf(rest);
    WordsCons(w, sp, rest);
  }

  /** A text that starts with a non-whitespace character is not blank. */
  lemma NotBlank(w: string, y: string)
    requires w != [] && !IsSpace(w[0])
    ensures TrimStr(w + y) != []
  {
    LettersTrim(w + y);
    LettersAppend(w, y);
    assert Letters(w)[0] == w[0];
  }

  /** `reload(a + " " + b)` names the feeds `a` and `b`, for any two names without whitespace. */
  lemma SplitNamesTwo(a: string, b: string)
    requires a != [] && NoSpace(a) && b != [] && NoSpace(b)
    ensures SplitNames(a + " " + b) == [a, b]
  {
    var sp := " ";
    assert IsSpace(sp[0]);
    var s := a + sp + b;
    assert TrimStr(s) != [] by {
      assert s == a + (sp + b);
      NotBlank(a, sp + b);
    }
    assert Words(s) == [a, b] by {
      WordsCons(a, sp, b);
      WordsOfWord(b);
    }
    SplitNamesAreWordsOf(s);
  }

  /** A single word is its own list of words. */
  lemma WordsOfWord(w: string)
    requires w != [] && NoSpace(w)
    ensures Words(w) == [w]
  {
    WordsStart(w);
    WordOfWordSpace(w, []);
    assert w + [] == w;
    assert w[|w|..] == [];
  }

  lemma {:induction false} SplitNamesAreWordsOf(s: string)
    requires TrimStr(s) != []
    ensures SplitNames(s) == Words(s)
  {
    SplitCollapsedWords(TrimStr(s));
    WordsTrimStr(s);
  }

  /** Trimming changes no word. */
  lemma {:induction false} WordsTrimStr(s: string)
    ensures Words(TrimStr(s)) == Words(s)
  {
    var r := TrimRight(s);
    assert TrimStr(s) == TrimLeft(r);
    WordsTrimLeft(r);
    PrefixSuffix(s, |r|);
    WordsBeforeSpaces(r, s[|r|..]);
  }

  lemma SplitNamesAreWords(s: string)
    requires TrimStr(s) != []
    ensures forall k :: 0 <= k < |SplitNames(s)| ==> SplitNames(s)[k] != [] && NoSpace(SplitNames(s)[k])
  {
    var u := Collapse(TrimStr(s));
    CollapseShape(TrimStr(s));
    SplitOnDropsSeparator(u, ' ');
    LaterPiecesNonEmpty(u, ' ');
    FirstPiece(u, ' ');
    PiecesFromText(u, ' ');
  }

  lemma SplitNamesKeepLetters(s: string)
    ensures Concat(SplitNames(s)) == Letters(s)
  {
    var t := TrimStr(s);
    var u := Collapse(t);
    CollapseShape(t);
    ConcatSplit(u, ' ');
    WithoutSpace(u);
    LettersCollapse(t);
    LettersTrim(s);
  }

  function Digit(d: nat): char
    requires d < 10
  {
    "0123456789"[d]
  }

  /** `n.toString()` for a natural number. */
  function NatToString(n: nat): (r: string)
    ensures |r| >= 1
    ensures (|r| == 1) <==> n < 10
  {
    if n < 10 then [Digit(n)] else NatToString(n / 10) + [Digit(n % 10)]
  }

  /** Equal strings with the same prefix have equal suffixes. */
  lemma AppendCancel(p: string, x: string, y: string)
    requires p + x == p + y
    ensures x == y
  {
    assert x == (p + x)[|p|..];
    assert y == (p + y)[|p|..];
  }

  /** Distinct numbers print differently. */
  lemma {:induction false} NatToStringInjective(m: nat, n: nat)
    requires NatToString(m) == NatToString(n)
    ensures m == n
  {
    if m >= 10 && n >= 10 {
      var a, b := NatToString(m), NatToString(n);
      assert a[|a| - 1] == b[|b| - 1];
      assert Digit(m % 10) == Digit(n % 10);
      assert NatToString(m / 10) == a[..|a| - 1] == b[..|b| - 1] == NatToString(n / 10);
      NatToStringInjective(m / 10, n / 10);
    }
  }

  /** Splitting at an occurrence of `c` that follows a `c`-free prefix. */
  lemma {:induction false} SplitOnAfter(a: string, c: char, b: string)
    requires c !in a
    ensures SplitOn(a + [c] + b, c) == [a] + SplitOn(b, c)
  {
    if a == [] {
      assert (a + [c] + b)[1..] == b;
    } else {
      var x := a + [c] + b;
      assert x[0] == a[0] && x[1..] == a[1..] + [c] + b;
      SplitOnAfter(a[1..], c, b);
      assert [a[0]] + a[1..] == a;
    }
  }

  lemma {:induction false} SplitOnAbsent(s: string, c: char)
    requires c !in s
    ensures SplitOn(s, c) == [s]
  {
    if s != [] {
      SplitOnAbsent(s[1..], c);
      assert [s[0]] + s[1..] == s;
    }
  }

  lemma {:induction false} LowerAppend(a: string, b: string)
    ensures Lower(a + b) == Lower(a) + Lower(b)
  {
    if a != [] {
      LowerAppend(a[1..], b);
      assert (a + b)[1..] == a[1..] + b;
      assert Lower(a + b) == [LowerChar(a[0])] + Lower(a[1..] + b);
    } else {
      assert a + b == b;
    }
  }

  lemma {:induction false} CollapseWord(w: string)
    requires NoSpace(w)
    ensures Collapse(w) == w
  {
    if w != [] {
      CollapseWord(w[1..]);
      assert [w[0]] + w[1..] == w;
    }
  }

  /** A single word is a list of one name. */
  lemma SplitNamesOfWord(w: string)
    requires w != "" && NoSpace(w)
    ensures SplitNames(w) == [w]
  {
    assert TrimRight(w) == w;
    assert TrimLeft(w) == w;
    CollapseWord(w);
    assert ' ' !in w by { assert IsSpace(' '); }
    SplitOnAbsent(w, ' ');
  }
}
