/** String handling of the guess check and of the masked word shown to the
    guessers: ASCII lower-casing, JavaScript's `trim`, and the word mask. */
module Text {

  /** ASCII lower-casing: `A`..`Z` become `a`..`z`; every other character is
      kept. */
  function LowerChar(c: char): char {
    if 'A' <= c <= 'Z' then (c as int + 32) as char else c
  }

  /** `toLowerCase`: keeps the length. */
  function Lower(s: string): (r: string)
    ensures |r| == |s|
  {
    if s == [] then [] else [LowerChar(s[0])] + Lower(s[1..])
  }

  /** Lower-casing works character by character. */
  lemma {:induction false} LowerSpec(s: string)
    ensures forall i :: 0 <= i < |s| ==> Lower(s)[i] == LowerChar(s[i])
  {
    if s != [] {
      LowerSpec(s[1..]);
    }
  }

  /** Lower-casing twice is lower-casing once. */
  lemma LowerIdempotent(s: string)
    ensures Lower(Lower(s)) == Lower(s)
  {
    LowerSpec(s);
    LowerSpec(Lower(s));
  }

  /** The characters JavaScript's `trim` removes: white space (including
      every space separator) and line terminators. */
  predicate IsJsSpace(c: char) {
    c == '\t' || c == '\n' || c == '\U{B}' || c == '\U{C}' || c == '\r' || c == ' '
    || c == '\U{A0}' || c == '\U{1680}' || ('\U{2000}' <= c <= '\U{200A}')
    || c == '\U{2028}' || c == '\U{2029}' || c == '\U{202F}' || c == '\U{205F}'
    || c == '\U{3000}' || c == '\U{FEFF}'
  }

  /** Lower-casing never turns a space into a non-space or back. */
  lemma LowerKeepsSpaces(c: char)
    ensures IsJsSpace(LowerChar(c)) == IsJsSpace(c)
  {
  }

  function TrimStart(s: string): string {
    if s != [] && IsJsSpace(s[0]) then TrimStart(s[1..]) else s
  }

  /** `trimStart` cuts a prefix made only of white space, up to the first
      character that is not. */
  lemma {:induction false} TrimStartSpec(s: string)
    ensures |TrimStart(s)| <= |s| && TrimStart(s) == s[|s| - |TrimStart(s)|..]
    ensures forall k :: 0 <= k < |s| - |TrimStart(s)| ==> IsJsSpace(s[k])
    ensures TrimStart(s) == [] || !IsJsSpace(TrimStart(s)[0])
  {
    if s != [] && IsJsSpace(s[0]) {
      var r := TrimStart(s[1..]);
      TrimStartSpec(s[1..]);
      assert s[1..][|s| - 1 - |r|..] == s[|s| - |r|..];
      forall k | 0 < k < |s| - |r| ensures IsJsSpace(s[k]) {
        assert s[k] == s[1..][k - 1];
      }
    }
  }

  function TrimEnd(s: string): string {
    if s != [] && IsJsSpace(s[|s| - 1]) then TrimEnd(s[..|s| - 1]) else s
  }

  /** `trimEnd` cuts a suffix made only of white space, back to the last
      character that is not. */
  lemma {:induction false} TrimEndSpec(s: string)
    ensures |TrimEnd(s)| <= |s| && TrimEnd(s) == s[..|TrimEnd(s)|]
    ensures forall k :: |TrimEnd(s)| <= k < |s| ==> IsJsSpace(s[k])
    ensures TrimEnd(s) == [] || !IsJsSpace(TrimEnd(s)[|TrimEnd(s)| - 1])
  {
    if s != [] && IsJsSpace(s[|s| - 1]) {
      TrimEndSpec(s[..|s| - 1]);
    }
  }

  /** `r` is the slice of `s` starting at `i` with only white space cut off
      before and after it. */
  ghost predicate TrimmedAt(s: string, r: string, i: nat) {
    i <= |s| - |r| && r == s[i..i + |r|]
    && (forall k :: 0 <= k < i ==> IsJsSpace(s[k]))
    && (forall k :: i + |r| <= k < |s| ==> IsJsSpace(s[k]))
  }

  /** Neither starts nor ends with white space. */
  ghost predicate Unpadded(t: string) {
    t == [] || (!IsJsSpace(t[0]) && !IsJsSpace(t[|t| - 1]))
  }

  /** JavaScript's `String.prototype.trim`: the middle slice of `s` that
      neither starts nor ends with white space; only white space is cut off
      on either side. */
  function Trim(s: string): (r: string)
    ensures Unpadded(r)
    ensures exists i :: TrimmedAt(s, r, i)
  {
    var a := TrimStart(s);
    TrimStartSpec(s);
    TrimEndSpec(a);
    var r := TrimEnd(a);
    assert r != [] ==> r[0] == a[0];
    assert TrimmedAt(s, r, |s| - |a|);
    r
  }

  /** `s` is the unpadded `t` with only white space around it. */
  ghost predicate Padding(s: string, t: string) {
    Unpadded(t) && exists i :: TrimmedAt(s, t, i)
  }

  /** The trim is the only unpadded slice with nothing but white space
      around it. */
  lemma TrimCharacterised(s: string, t: string)
    ensures Trim(s) == t <==> Padding(s, t)
  {
    var r := Trim(s);
    var j: nat :| TrimmedAt(s, r, j);
    assert Padding(s, r);
    if Padding(s, t) {
      var i: nat :| TrimmedAt(s, t, i);
      if r != [] && t != [] {
        assert s[j] == r[0] && s[i] == t[0];
        assert s[j + |r| - 1] == r[|r| - 1] && s[i + |t| - 1] == t[|t| - 1];
        assert i == j && |r| == |t|;
      } else if r != [] || t != [] {
        assert false;
      }
    }
  }

  /** A string that neither starts nor ends with white space is its own trim. */
  lemma TrimKeeps(s: string)
    requires Unpadded(s)
    ensures Trim(s) == s
  {
    assert TrimmedAt(s, s, 0);
    TrimCharacterised(s, s);
  }

  /** The guess check: the guess, lower-cased and trimmed, equals the
      lower-cased word. Only an unpadded word no longer than the guess can
      match. */
  function Matches(guess: string, word: string): (m: bool)
    ensures m ==> Unpadded(Lower(word)) && |Lower(word)| <= |guess|
  {
    Trim(Lower(guess)) == Lower(word)
  }

  /** The guess matches exactly when the lower-cased word is unpadded and
      occurs in the lower-cased guess with only white space around it. */
  lemma MatchesSpec(guess: string, word: string)
    ensures Matches(guess, word) <==> Padding(Lower(guess), Lower(word))
  {
    TrimCharacterised(Lower(guess), Lower(word));
  }

  /** The check ignores case on the guesser's side. */
  lemma {:induction false} MatchesIgnoresCase(guess: string, word: string)
    ensures Matches(Lower(guess), word) == Matches(guess, word)
  {
    LowerIdempotent(guess);
  }

  /** Typing the word itself, in any case, is a match when the word has no
      white space at either end. */
  lemma {:induction false} MatchesOwnWord(word: string)
    requires Unpadded(word)
    ensures Matches(word, word)
  {
    var l := Lower(word);
    LowerSpec(word);
    if word != [] {
      LowerKeepsSpaces(word[0]);
      LowerKeepsSpaces(word[|word| - 1]);
    }
    TrimKeeps(l);
  }

  /** A (custom) word that starts or ends with white space can never be
      guessed: the trimmed guess cannot equal it. */
  lemma {:induction false} UnguessableWord(guess: string, word: string)
    requires word != [] && (IsJsSpace(word[0]) || IsJsSpace(word[|word| - 1]))
    ensures !Matches(guess, word)
  {
    LowerSpec(word);
    LowerKeepsSpaces(word[0]);
    LowerKeepsSpaces(word[|word| - 1]);
  }

  // ---------------------------------------------------------------------
  // The masked word

  /** The display token of character `i`: a space becomes two spaces, the
      first and the last character are shown, every other one is `_`. */
  function Token(w: string, i: nat): string
    requires i < |w|
  {
    if w[i] == ' ' then "  "
    else if i == 0 || i == |w| - 1 then [w[i]]
    else "_"
  }

  /** The tokens of characters `i..` joined by single spaces. */
  function MaskFrom(w: string, i: nat): string
    requires i < |w|
    decreases |w| - i
  {
    Token(w, i) + (if i + 1 < |w| then " " + MaskFrom(w, i + 1) else "")
  }

  /** The masked word: one token per character, joined by single spaces;
      the empty word masks to the empty string. */
  function Mask(w: string): (m: string)
    ensures m == JoinSp(Tokens(w))
  {
    if w == [] then ""
    else
      MaskFromJoin(w, 0);
      assert Tokens(w)[0..] == Tokens(w);
      MaskFrom(w, 0)
  }

  /** The mask reveals no letter of the word but its first and its last:
      every other character shown is `_` or a space. */
  lemma MaskRevealsOnlyEnds(w: string)
    ensures forall k :: 0 <= k < |Mask(w)| ==>
              Mask(w)[k] in {'_', ' '} || Mask(w)[k] == w[0] || Mask(w)[k] == w[|w| - 1]
  {
    if w != [] {
      MaskFromRevealsOnlyEnds(w, 0);
    }
  }

  lemma {:induction false} MaskFromRevealsOnlyEnds(w: string, i: nat)
    requires i < |w|
    decreases |w| - i
    ensures forall k :: 0 <= k < |MaskFrom(w, i)| ==>
              MaskFrom(w, i)[k] in {'_', ' '} || MaskFrom(w, i)[k] == w[0] || MaskFrom(w, i)[k] == w[|w| - 1]
  {
    if i + 1 < |w| {
      MaskFromRevealsOnlyEnds(w, i + 1);
      var t, rest := Token(w, i), MaskFrom(w, i + 1);
      assert MaskFrom(w, i) == t + [' '] + rest;
      forall k | 0 <= k < |MaskFrom(w, i)|
        ensures MaskFrom(w, i)[k] in {'_', ' '} || MaskFrom(w, i)[k] == w[0] || MaskFrom(w, i)[k] == w[|w| - 1]
      {
        if k >= |t| + 1 {
          assert MaskFrom(w, i)[k] == rest[k - |t| - 1];
        }
      }
    }
  }

  /** What the mask shows for character `i`: the character itself at the
      two ends, `_` elsewhere. */
  function Shown(w: string, i: nat): char
    requires i < |w|
  {
    if i == 0 || i == |w| - 1 then w[i] else '_'
  }

  /** For a word without spaces the mask has length `2|w| - 1`: every even
      position `2i` shows character `i` (itself at the two ends, `_`
      elsewhere) and every odd position is the separating space. */
  lemma MaskWithoutSpaces(w: string)
    requires w != []
    requires forall i :: 0 <= i < |w| ==> w[i] != ' '
    ensures |Mask(w)| == 2 * |w| - 1
    ensures forall k :: 0 <= k < |Mask(w)| ==>
              Mask(w)[k] == (if k % 2 == 1 then ' ' else Shown(w, k / 2))
  {
    MaskFromWithoutSpaces(w, 0);
  }

  lemma {:induction false} MaskFromWithoutSpaces(w: string, j: nat)
    requires j < |w|
    requires forall i :: 0 <= i < |w| ==> w[i] != ' '
    decreases |w| - j
    ensures |MaskFrom(w, j)| == 2 * (|w| - j) - 1
    ensures forall k :: 0 <= k < |MaskFrom(w, j)| ==>
              MaskFrom(w, j)[k] == (if k % 2 == 1 then ' ' else Shown(w, j + k / 2))
  {
    if j + 1 < |w| {
      MaskFromWithoutSpaces(w, j + 1);
      var rest := MaskFrom(w, j + 1);
      assert |Token(w, j)| == 1;
      assert MaskFrom(w, j) == Token(w, j) + [' '] + rest;
      forall k | 2 <= k < |MaskFrom(w, j)|
        ensures MaskFrom(w, j)[k] == (if k % 2 == 1 then ' ' else Shown(w, j + k / 2))
      {
        assert MaskFrom(w, j)[k] == rest[k - 2];
        assert (k - 2) % 2 == k % 2 && j + 1 + (k - 2) / 2 == j + k / 2;
      }
    }
  }

  /** The tokens of a word, one per character, as the `map` builds them. */
  function Tokens(w: string): (ts: seq<string>)
    ensures |ts| == |w|
    ensures forall i :: 0 <= i < |w| ==> ts[i] == Token(w, i)
  {
    seq(|w|, i requires 0 <= i < |w| => Token(w, i))
  }

  /** `join(' ')`: the strings in order, one space between neighbours. */
  function JoinSp(ts: seq<string>): string {
    if ts == [] then ""
    else if |ts| == 1 then ts[0]
    else ts[0] + " " + JoinSp(ts[1..])
  }

  lemma {:induction false} MaskFromJoin(w: string, j: nat)
    requires j < |w|
    decreases |w| - j
    ensures MaskFrom(w, j) == JoinSp(Tokens(w)[j..])
  {
    var ts := Tokens(w)[j..];
    if j + 1 < |w| {
      MaskFromJoin(w, j + 1);
      assert ts[1..] == Tokens(w)[j + 1..];
    } else {
      assert ts == [Token(w, j)];
    }
  }

  /** Joining two non-empty runs puts one space between them. */
  lemma {:induction false} JoinAppend(a: seq<string>, b: seq<string>)
    requires a != [] && b != []
    decreases |a|
    ensures JoinSp(a + b) == JoinSp(a) + " " + JoinSp(b)
  {
    assert (a + b)[0] == a[0];
    if |a| == 1 {
      assert (a + b)[1..] == b;
    } else {
      JoinAppend(a[1..], b);
      assert (a + b)[1..] == a[1..] + b;
    }
  }

  /** A space inside a multi-word entry shows as four spaces: its own token
      of two spaces, with a separator on either side, between the masks of
      the characters before and after it. */
  lemma MaskInnerSpace(w: string, i: nat)
    requires 0 < i < |w| - 1 && w[i] == ' '
    ensures Mask(w) == JoinSp(Tokens(w)[..i]) + "    " + JoinSp(Tokens(w)[i + 1..])
  {
    var ts := Tokens(w);
    var before, after := ts[..i], ts[i + 1..];
    var rest := [ts[i]] + after;
    assert ts == before + rest;
    JoinAppend(before, rest);
    var a, b := JoinSp(before), JoinSp(after);
    assert JoinSp(rest) == ts[i] + " " + b by {
      assert rest[0] == ts[i] && rest[1..] == after;
    }
    assert ts[i] == "  ";
    assert a + " " + ("  " + " " + b) == a + "    " + b;
  }

  /** A two-word entry: the space between the words shows as four spaces,
      two for the space itself and one separator on either side. */
  lemma MaskTwoWords()
    ensures Mask("ab cd") == "a _    _ d"
  {
    assert MaskFrom("ab cd", 4) == "d";
    assert MaskFrom("ab cd", 3) == "_ d";
    assert MaskFrom("ab cd", 2) == "   _ d";
  }

  /** The first and last characters of the mask: those of the word when they
      are not spaces. */
  lemma MaskEnds(w: string)
    requires w != []
    ensures Mask(w) != []
    ensures Mask(w)[0] == w[0]
    ensures Mask(w)[|Mask(w)| - 1] == w[|w| - 1]
  {
    MaskFromLast(w, 0);
  }

  lemma {:induction false} MaskFromLast(w: string, i: nat)
    requires i < |w|
    decreases |w| - i
    ensures MaskFrom(w, i) != []
    ensures MaskFrom(w, i)[|MaskFrom(w, i)| - 1] == w[|w| - 1]
  {
    if i + 1 < |w| {
      MaskFromLast(w, i + 1);
    }
  }

  /** The mask of `Mercy`. */
  lemma MaskExample()
    ensures Mask("Mercy") == "M _ _ _ y"
  {
    assert MaskFrom("Mercy", 4) == "y";
    assert MaskFrom("Mercy", 3) == "_ y";
  }
}
