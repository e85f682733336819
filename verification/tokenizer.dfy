/** strtok with the delimiter " ", cutting up a buffer in place (C11, section 7.24.5.8). */
module Tokenizers {
  import opened CStrings

  /** The word w stands, NUL-terminated, at a position all of it below the mark. */
  ghost predicate Standing(b: seq<char>, mark: int, tok: int, w: string) {
    && 0 <= tok && tok + |w| < |b| && tok + |w| < mark
    && b[tok..tok + |w|] == w && b[tok + |w|] == '\0' && '\0' !in w
  }

  /** A token survives a change above the mark. */
  lemma StillStanding(b: seq<char>, mark: int, c: seq<char>, mark': int, tok: int, w: string)
    requires Standing(b, mark, tok, w)
    requires 0 <= mark <= |b| == |c| && mark <= mark' && c[..mark] == b[..mark]
    ensures Standing(c, mark', tok, w)
  {
    assert c[tok..tok + |w|] == c[..mark][tok..tok + |w|] == b[..mark][tok..tok + |w|] == b[tok..tok + |w|];
    assert c[tok + |w|] == c[..mark][tok + |w|] == b[..mark][tok + |w|];
  }

  class Tokenizer {
    const buf: array<char>
    var save: int                     // where the next search starts; -1 once it can find nothing
    ghost var end: nat                // the NUL that ends the line

    ghost predicate Valid()
      reads this, buf
    {
      end < buf.Length && buf[end] == '\0' && -1 <= save <= end
    }

    /** The part of the line not yet searched. */
    ghost function Rest(): string
      reads this, buf
      requires Valid()
    {
      if save < 0 then "" else CStr(buf[..], save)
    }

    /** Tokens already returned lie below this position. */
    function Mark(): int
      reads this
    {
      if save < 0 then buf.Length else save
    }

    constructor (buf: array<char>, ghost end: nat)
      requires end < buf.Length && buf[end] == '\0'
      ensures Valid() && this.buf == buf && save == 0 && this.end == end
    {
      this.buf, this.save, this.end := buf, 0, end;
    }

    ghost predicate Holds(tok: int, w: string)
      reads this, buf
    {
      Standing(buf[..], Mark(), tok, w)
    }

    /** First position from i on that is not a space. */
    method SkipSpaces(i: nat) returns (j: nat)
      requires Valid() && i <= end
      ensures i <= j <= end && buf[j] != ' '
      ensures Split(CStr(buf[..], j)) == Split(CStr(buf[..], i))
    {
      j := i;
      while buf[j] == ' '
        invariant i <= j <= end
        invariant Split(CStr(buf[..], j)) == Split(CStr(buf[..], i))
        decreases end - j
      {
        assert CStr(buf[..], j) == [' '] + CStr(buf[..], j + 1);
        assert CStr(buf[..], j)[1..] == CStr(buf[..], j + 1);
        j := j + 1;
      }
    }

    /** First position from i on that is a space or the NUL. */
    method SkipWord(i: nat) returns (j: nat)
      requires Valid() && i <= end
      ensures i <= j <= end && (buf[j] == ' ' || buf[j] == '\0')
      ensures ' ' !in buf[i..j] && '\0' !in buf[i..j]
      ensures CStr(buf[..], i) == buf[i..j] + CStr(buf[..], j)
    {
      hide CStr;
      j := i;
      assert buf[i..i] == "";
      while buf[j] != ' ' && buf[j] != '\0'
        invariant i <= j <= end
        invariant ' ' !in buf[i..j] && '\0' !in buf[i..j]
        invariant CStr(buf[..], i) == buf[i..j] + CStr(buf[..], j)
        decreases end - j
      {
        CStrStarts(buf[..], j);
        assert buf[i..j + 1] == buf[i..j] + [buf[j]];
        j := j + 1;
      }
    }

    lemma NothingSplits(i: int)
      requires Valid() && i <= end
      ensures Split("") == []
      ensures i >= 0 && buf[i] == '\0' ==> CStr(buf[..], i) == ""
    {
    }

    /** The run from tok to j is the first word of what is left, and what follows j is the rest. */
    lemma RunSplits(tok: nat, j: nat)
      requires Valid() && tok <= j <= end && buf[tok] != ' ' && buf[tok] != '\0'
      requires (buf[j] == ' ' || buf[j] == '\0') && ' ' !in buf[tok..j]
      requires CStr(buf[..], tok) == buf[tok..j] + CStr(buf[..], j)
      ensures tok < j && Split(CStr(buf[..], tok)) == [buf[tok..j]] + Split(CStr(buf[..], j))
    {
      hide Split;
      SplitWord(buf[tok..j], CStr(buf[..], j));
    }

    /** Finds the next word: it runs from tok to j.  tok is -1 if there is none. */
    method NextRun() returns (tok: int, j: nat)
      requires Valid() && 0 <= save
      ensures tok == -1 <==> Split(Rest()) == []
      ensures tok != -1 ==>
        && save <= tok < j <= end && (buf[j] == ' ' || buf[j] == '\0') && '\0' !in buf[tok..j]
        && Split(Rest()) == [buf[tok..j]] + Split(CStr(buf[..], j))
    {
      hide Split, CStr;
      tok := SkipSpaces(save);
      NothingSplits(tok);
      if buf[tok] == '\0' {
        return -1, 0;
      }
      j := SkipWord(tok);
      RunSplits(tok, j);
    }

    /**
      strtok(restart ? line : NULL, " "): the next maximal space-free run, NUL-terminated in
      place, or -1 if there is none.  Nothing below the old mark changes.
    */
    method StrTok() returns (tok: int)
      requires Valid()
      modifies this`save, buf
      ensures Valid() && end == old(end)
      ensures Split(old(Rest())) == [] ==> tok == -1 && save == -1 && buf[..] == old(buf[..])
      ensures Split(old(Rest())) != [] ==>
        Holds(tok, Split(old(Rest()))[0]) && Split(Rest()) == Split(old(Rest()))[1..]
      ensures old(Mark()) <= Mark() && buf[..old(Mark())] == old(buf[..Mark()])
      ensures old(save) < 0 ==> buf[..] == old(buf[..])
    {
      NothingSplits(save);
      if save < 0 {
        return -1;
      }
      hide Split, CStr;
      var j;
      tok, j := NextRun();
      if tok == -1 {
        save := -1;
        return;
      }
      ghost var start, word, rest := save, buf[tok..j], Split(CStr(buf[..], j));
      hide Standing;
      Cut(tok, j);
      assert Holds(tok, word) && Split(Rest()) == rest == ([word] + rest)[1..];
      assert buf[..start] == buf[..j][..start];
    }

    /** Ends the token that runs from tok to j, and moves on. */
    method Cut(tok: int, j: nat)
      requires Valid() && 0 <= save <= tok < j <= end && (buf[j] == ' ' || buf[j] == '\0')
      requires '\0' !in buf[tok..j]
      modifies this`save, buf
      ensures Valid() && end == old(end) && j < Mark()
      ensures buf[j] == '\0' && buf[..j] == old(buf[..j])
      ensures Holds(tok, old(buf[tok..j]))
      ensures Split(Rest()) == Split(old(CStr(buf[..], j)))
    {
      if buf[j] == ' ' {
        assert CStr(buf[..], j) == [' '] + CStr(buf[..], j + 1);
        assert CStr(buf[..], j)[1..] == CStr(buf[..], j + 1);
        CutLeavesRest(j);
        buf[j] := '\0';
        assert buf[..] == old(buf[..])[j := '\0'];
        save := j + 1;
      } else {
        save := -1;
      }
      assert buf[tok..j] == buf[..j][tok..j];
    }

    lemma CutLeavesRest(j: nat)
      requires Valid() && j < end
      ensures CStr(buf[..][j := '\0'], j + 1) == CStr(buf[..], j + 1)
    {
      CStrOnlyReadsTo(buf[..][j := '\0'], buf[..], j + 1, end);
    }

    /** toks are the results so far on a line of these words: one per word, then -1 for ever. */
    ghost predicate Fields(toks: seq<int>, words: seq<string>)
      reads this, buf
    {
      && Valid()
      && (forall i :: 0 <= i < |toks| && i < |words| ==> Holds(toks[i], words[i]))
      && (forall i :: |words| <= i < |toks| ==> toks[i] == -1)
      && Split(Rest()) == (if |toks| <= |words| then words[|toks|..] else [])
    }

    /** The k-th call on a line returns its k-th word, and leaves the earlier ones in place. */
    method NextField(ghost toks: seq<int>, ghost words: seq<string>) returns (tok: int)
      requires Fields(toks, words)
      modifies this`save, buf
      ensures Fields(toks + [tok], words) && end == old(end)
    {
      ghost var before, mark := buf[..], Mark();
      tok := StrTok();
      assert buf[..][..mark] == buf[..mark] && before[..mark] == old(buf[..Mark()]);
      forall i | 0 <= i < |toks| && i < |words|
        ensures Holds(toks[i], words[i])
      {
        StillStanding(before, mark, buf[..], Mark(), toks[i], words[i]);
      }
      ghost var all := toks + [tok];
      assert forall i :: 0 <= i < |all| && i < |words| ==> Holds(all[i], words[i]);
    }

    lemma FieldIs(toks: seq<int>, words: seq<string>, k: nat)
      requires Fields(toks, words) && k < |toks|
      ensures toks[k] != -1 <==> k < |words|
      ensures k < |words| ==> Holds(toks[k], words[k])
    {
    }

    /** The string an RPC receives for a token. */
    method Read(tok: int, ghost w: string) returns (s: string)
      requires Holds(tok, w)
      ensures s == w
    {
      s := "";
      var i := tok;
      forall k | 0 <= k < |w|
        ensures buf[tok + k] == w[k] != '\0'
      {
        assert buf[tok..tok + |w|][k] == w[k] && w[k] in w;
      }
      while buf[i] != '\0'
        invariant tok <= i <= tok + |w| && s == w[..i - tok]
        decreases tok + |w| - i
      {
        assert buf[tok + (i - tok)] == w[i - tok];
        s := s + [buf[i]];
        i := i + 1;
      }
    }
  }
}
