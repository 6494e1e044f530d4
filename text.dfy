/** The Python string and list built-ins the solver scripts rely on:
    indexing with negative indices, `str.split(sep)`, `str.split()`,
    `" ".join(...)` and `str.find(...) != -1`. */
module Text {
  import opened Errors

  /** The characters Python 2's `str.split()` treats as whitespace. */
  const Whitespace: set<char> := {' ', '\t', '\n', '\r', '\U{000B}', '\U{000C}'}

  /** Python's `s[k]`: a negative `k` counts from the end; anything else
      outside the sequence raises IndexError. */
  function At<T>(s: seq<T>, k: int): Result<T>
  {
    if 0 <= k < |s| then Ok(s[k])
    else if -|s| <= k < 0 then Ok(s[k + |s|])
    else Fail(IndexError)
  }

  /** `s.split(c)` when `seps == {c}`: the pieces between separators, empty
      pieces included; there is always at least one piece. */
  function Split(s: string, seps: set<char>): (r: seq<string>)
    ensures |r| >= 1
  {
    if |s| == 0 then [""]
    else
      var rest := Split(s[1..], seps);
      if s[0] in seps then [""] + rest else [[s[0]] + rest[0]] + rest[1..]
  }

  /** The pieces of `ps` that are not empty, in order. */
  function NonEmpty(ps: seq<string>): seq<string>
  {
    if ps == [] then []
    else (if ps[0] == "" then [] else [ps[0]]) + NonEmpty(ps[1..])
  }

  /** `s.split()`: the maximal runs of non-whitespace characters. */
  function Words(s: string): seq<string>
  {
    NonEmpty(Split(s, Whitespace))
  }

  /** `sep.join(ps)`. */
  function Join(ps: seq<string>, sep: string): string
  {
    if |ps| == 0 then ""
    else if |ps| == 1 then ps[0]
    else ps[0] + sep + Join(ps[1..], sep)
  }

  /** Joining a piece in front of a non-empty list. */
  lemma JoinCons(p: string, ps: seq<string>, sep: string)
    requires ps != []
    ensures Join([p] + ps, sep) == p + sep + Join(ps, sep)
  {
    assert ([p] + ps)[1..] == ps;
  }

  /** `s.find(t) != -1`. */
  predicate HasSubstring(s: string, t: string)
  {
    |t| <= |s| && (s[..|t|] == t || HasSubstring(s[1..], t))
  }

  /** `At` agrees with Python's indexing rule. */
  lemma AtIndex<T>(s: seq<T>, k: int)
    ensures At(s, k).Ok? <==> -|s| <= k < |s|
    ensures At(s, k).Ok? ==> At(s, k).value == s[if k < 0 then k + |s| else k]
  {
  }

  /** No piece produced by `Split` holds a separator. */
  lemma {:induction false} SplitPiecesFree(s: string, seps: set<char>)
    ensures forall p, j :: p in Split(s, seps) && 0 <= j < |p| ==> p[j] !in seps
  {
    if |s| > 0 {
      SplitPiecesFree(s[1..], seps);
    }
  }

  /** Splitting on one character and joining with it gives back the string. */
  lemma {:induction false} SplitJoin(s: string, c: char)
    ensures Join(Split(s, {c}), [c]) == s
  {
    if |s| > 0 {
      SplitJoin(s[1..], c);
      var rest := Split(s[1..], {c});
      if s[0] != c {
        var ps := [[s[0]] + rest[0]] + rest[1..];
        if |rest| == 1 {
          assert Join(ps, [c]) == [s[0]] + rest[0];
        } else {
          assert ps[1..] == rest[1..];
          assert Join(ps, [c]) == [s[0]] + rest[0] + [c] + Join(rest[1..], [c]);
        }
      }
    }
  }

  /** Every element of `NonEmpty(ps)` is a non-empty element of `ps`, and
      every non-empty element of `ps` is kept. */
  lemma {:induction false} NonEmptyMembers(ps: seq<string>)
    ensures forall w :: w in NonEmpty(ps) <==> w in ps && w != ""
  {
    if ps != [] {
      NonEmptyMembers(ps[1..]);
      assert ps == [ps[0]] + ps[1..];
    }
  }

  /** Each word of `s.split()` is non-empty and holds no whitespace. */
  lemma WordsAreWords(s: string)
    ensures forall w :: w in Words(s) ==> w != "" && Free(w, Whitespace)
  {
    NonEmptyMembers(Split(s, Whitespace));
    SplitPiecesFree(s, Whitespace);
  }

  /** No character of `s` is in `seps`. */
  predicate Free(s: string, seps: set<char>)
  {
    forall j :: 0 <= j < |s| ==> s[j] !in seps
  }

  /** A string with no separator is a single piece. */
  lemma {:induction false} SplitFree(a: string, seps: set<char>)
    requires Free(a, seps)
    ensures Split(a, seps) == [a]
  {
    if |a| > 0 {
      SplitFree(a[1..], seps);
      assert a[0] !in seps && [a[0]] + a[1..] == a;
    }
  }

  /** A separator after a separator-free prefix closes the first piece. */
  lemma {:induction false} SplitAt(a: string, c: char, b: string, seps: set<char>)
    requires c in seps && Free(a, seps)
    ensures Split(a + [c] + b, seps) == [a] + Split(b, seps)
  {
    if |a| > 0 {
      assert (a + [c] + b)[1..] == a[1..] + [c] + b;
      SplitAt(a[1..], c, b, seps);
      assert (a + [c] + b)[0] == a[0] && a[0] !in seps && [a[0]] + a[1..] == a;
    }
  }

  /** `sep.join(ps).split(sep) == ps` when no piece holds a separator:
      the partner of SplitJoin. */
  lemma {:induction false} JoinSplit(ps: seq<string>, c: char, seps: set<char>)
    requires |ps| >= 1 && c in seps
    requires forall k :: 0 <= k < |ps| ==> Free(ps[k], seps)
    ensures Split(Join(ps, [c]), seps) == ps
  {
    if |ps| == 1 {
      SplitFree(ps[0], seps);
    } else {
      JoinSplit(ps[1..], c, seps);
      SplitAt(ps[0], c, Join(ps[1..], [c]), seps);
    }
  }

  /** NonEmpty keeps a list with no empty piece as it is. */
  lemma {:induction false} NonEmptyKeeps(ps: seq<string>)
    requires forall k :: 0 <= k < |ps| ==> ps[k] != ""
    ensures NonEmpty(ps) == ps
  {
    if ps != [] {
      NonEmptyKeeps(ps[1..]);
      assert [ps[0]] + ps[1..] == ps;
    }
  }

  /** `" ".join(ws).split() == ws` for words: the partner of Join. */
  lemma WordsJoin(ws: seq<string>)
    requires forall k :: 0 <= k < |ws| ==> ws[k] != "" && Free(ws[k], Whitespace)
    ensures Words(Join(ws, " ")) == ws
  {
    if ws != [] {
      JoinSplit(ws, ' ', Whitespace);
      NonEmptyKeeps(ws);
    } else {
      assert Split("", Whitespace) == [""];
      assert NonEmpty([""]) == [] + NonEmpty([]);
    }
  }
}
