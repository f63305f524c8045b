/** `createUsernames`: an account's username is the lower-cased first
    character of every space-separated word of the owner's name. */
module Usernames {

  /** `toLowerCase` on one character, for the ASCII letters. */
  function ToLower(c: char): (r: char)
    ensures !('A' <= r <= 'Z')
    ensures 'A' <= c <= 'Z' ==> 'a' <= r <= 'z' && r as int - c as int == 32
    ensures !('A' <= c <= 'Z') ==> r == c
  {
    if 'A' <= c <= 'Z' then (c as int + 32) as char else c
  }

  /** `toLowerCase` on a string: character by character. */
  function Lower(s: string): (r: string)
    ensures |r| == |s|
    ensures forall i :: 0 <= i < |r| ==> r[i] == ToLower(s[i])
    ensures forall i :: 0 <= i < |r| ==> !('A' <= r[i] <= 'Z')
    ensures forall i :: 0 <= i < |s| && !('A' <= s[i] <= 'Z') ==> r[i] == s[i]
  {
    if s == [] then [] else [ToLower(s[0])] + Lower(s[1..])
  }

  /** `s.split(' ')`: the pieces between the spaces, including the empty
      ones produced by leading, trailing or repeated spaces. */
  function Split(s: string): (words: seq<string>)
    ensures |words| >= 1
  {
    if s == [] then [[]]
    else
      var rest := Split(s[1..]);
      if s[0] == ' ' then [[]] + rest
      else [[s[0]] + rest[0]] + rest[1..]
  }

  /** No piece contains a space. */
  lemma {:induction false} SplitHasNoSpaces(s: string)
    ensures forall w :: w in Split(s) ==> ' ' !in w
  {
    if s != [] {
      SplitHasNoSpaces(s[1..]);
      var rest := Split(s[1..]);
      if s[0] != ' ' {
        assert forall w :: w in Split(s) ==> w == [s[0]] + rest[0] || w in rest;
      }
    }
  }

  /** `words.join(' ')`: the inverse of Split. */
  function JoinSpaced(words: seq<string>): string
    requires |words| >= 1
  {
    if |words| == 1 then words[0] else words[0] + [' '] + JoinSpaced(words[1..])
  }

  /** `name[0]`: an empty word gives `undefined`, which `join('')` turns
      into the empty string. */
  function Initial(word: string): (r: string)
    ensures |r| <= 1
    ensures r == [] <==> word == []
    ensures r != [] ==> r[0] == word[0]
  {
    if word == [] then [] else [word[0]]
  }

  /** `.map(name => name[0]).join('')` */
  function Initials(words: seq<string>): (r: string)
    ensures (forall w :: w in words ==> w != []) ==> |r| == |words|
    ensures (forall w :: w in words ==> w == []) ==> r == []
  {
    if words == [] then []
    else
      assert words[0] in words;
      assert forall w :: w in words[1..] ==> w in words;
      Initial(words[0]) + Initials(words[1..])
  }

  /** The username is the lower-cased word-starting characters of the
      owner's name, in order. */
  function Username(owner: string): (r: string)
    ensures r == Lower(WordStarts(owner, true))
  {
    InitialsAreWordStarts(Lower(owner));
    LowerWordStarts(owner, true);
    Initials(Split(Lower(owner)))
  }

  /** The number of pieces is one more than the number of spaces. */
  function SpaceCount(s: string): nat
  {
    if s == [] then 0 else (if s[0] == ' ' then 1 else 0) + SpaceCount(s[1..])
  }

  lemma {:induction false} SplitLength(s: string)
    ensures |Split(s)| == SpaceCount(s) + 1
  {
    if s != [] {
      SplitLength(s[1..]);
    }
  }

  /** Joining the pieces with spaces gives the string back. */
  lemma {:induction false} JoinSplit(s: string)
    ensures JoinSpaced(Split(s)) == s
  {
    if s != [] {
      var rest := Split(s[1..]);
      JoinSplit(s[1..]);
      if s[0] == ' ' {
        assert ([[]] + rest)[1..] == rest;
      } else {
        var words := [[s[0]] + rest[0]] + rest[1..];
        if |rest| > 1 {
          assert words[1..] == rest[1..];
        }
      }
    }
  }

  /** A word without spaces followed by a space starts the split. */
  lemma {:induction false} SplitWordThenSpace(w: string, t: string)
    requires ' ' !in w
    ensures Split(w + [' '] + t) == [w] + Split(t)
  {
    if w != [] {
      SplitWordThenSpace(w[1..], t);
      assert (w + [' '] + t)[1..] == w[1..] + [' '] + t;
      assert [w[0]] + w[1..] == w;
    } else {
      assert [' '] + t == w + [' '] + t;
      assert ([' '] + t)[1..] == t;
    }
  }

  /** A word without spaces splits into itself. */
  lemma {:induction false} SplitWord(w: string)
    requires ' ' !in w
    ensures Split(w) == [w]
  {
    if w != [] {
      SplitWord(w[1..]);
      assert [w[0]] + w[1..] == w;
    }
  }

  /** Splitting the spaced join of space-free words gives the words back. */
  lemma {:induction false} SplitJoin(words: seq<string>)
    requires |words| >= 1
    requires forall w :: w in words ==> ' ' !in w
    ensures Split(JoinSpaced(words)) == words
  {
    if |words| == 1 {
      SplitWord(words[0]);
    } else {
      SplitJoin(words[1..]);
      SplitWordThenSpace(words[0], JoinSpaced(words[1..]));
      assert [words[0]] + words[1..] == words;
    }
  }

  /** Reference definition: the characters of `s` that start a word, that
      is, non-space characters at the start or right after a space.
      `atStart` says whether the previous character was a space (or none). */
  function WordStarts(s: string, atStart: bool): string
  {
    if s == [] then []
    else if s[0] == ' ' then WordStarts(s[1..], true)
    else (if atStart then [s[0]] else []) + WordStarts(s[1..], false)
  }

  /** The initials of the pieces are the word-starting characters; the
      pieces after the first give those after the first space. */
  lemma {:induction false} InitialsAreWordStarts(s: string)
    ensures Initials(Split(s)) == WordStarts(s, true)
    ensures Initials(Split(s)[1..]) == WordStarts(s, false)
  {
    if s != [] {
      InitialsAreWordStarts(s[1..]);
      var rest := Split(s[1..]);
      if s[0] == ' ' {
        assert Split(s)[1..] == rest;
        assert Initials(Split(s)) == Initial([]) + Initials(rest);
      } else {
        var words := [[s[0]] + rest[0]] + rest[1..];
        assert words[1..] == rest[1..];
        assert Initials(words) == [s[0]] + Initials(rest[1..]);
      }
    }
  }

  lemma {:induction false} LowerWordStarts(s: string, atStart: bool)
    ensures WordStarts(Lower(s), atStart) == Lower(WordStarts(s, atStart))
  {
    if s != [] {
      LowerWordStarts(s[1..], true);
      LowerWordStarts(s[1..], false);
      assert Lower(s)[1..] == Lower(s[1..]);
      if s[0] != ' ' {
        LowerConcat(if atStart then [s[0]] else [], WordStarts(s[1..], false));
      }
    }
  }

  lemma {:induction false} LowerConcat(a: string, b: string)
    ensures Lower(a + b) == Lower(a) + Lower(b)
  {
    if a == [] {
      assert a + b == b;
    } else {
      assert (a + b)[1..] == a[1..] + b;
      LowerConcat(a[1..], b);
    }
  }

  lemma {:induction false} WordStartsEmpty(s: string)
    ensures WordStarts(s, true) == [] <==> forall i :: 0 <= i < |s| ==> s[i] == ' '
  {
    if s != [] {
      WordStartsEmpty(s[1..]);
      if s[0] == ' ' {
        assert forall i :: 1 <= i < |s| ==> s[i] == s[1..][i - 1];
      }
    }
  }

  /** The username is empty exactly when the owner's name has no character
      other than spaces (the empty name included). */
  lemma UsernameEmpty(owner: string)
    ensures Username(owner) == [] <==> forall i :: 0 <= i < |owner| ==> owner[i] == ' '
  {
    WordStartsEmpty(owner);
  }

  /** The pieces that are not empty. */
  function NonEmpty(words: seq<string>): seq<string>
  {
    if words == [] then []
    else (if words[0] == [] then [] else [words[0]]) + NonEmpty(words[1..])
  }

  /** Each piece contributes at most one character, and exactly one when it
      is not empty. */
  lemma {:induction false} InitialsLength(words: seq<string>)
    ensures |Initials(words)| <= |words|
    ensures |Initials(words)| == |NonEmpty(words)|
  {
    if words != [] {
      InitialsLength(words[1..]);
    }
  }

  /** The username has at most one character per space-separated word of
      the owner's name. */
  lemma UsernameLength(owner: string)
    ensures |Username(owner)| <= |Split(Lower(owner))|
    ensures |Username(owner)| <= |owner|
  {
    InitialsLength(Split(Lower(owner)));
    WordStartsLength(owner, true);
  }

  lemma {:induction false} WordStartsLength(s: string, atStart: bool)
    ensures |WordStarts(s, atStart)| <= |s|
  {
    if s != [] {
      WordStartsLength(s[1..], true);
      WordStartsLength(s[1..], false);
    }
  }
}
