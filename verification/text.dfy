/** Python's whitespace handling as the profile builders use it: `str.strip()`,
    `str.split()` with no argument, and `str.split(sep)` with a one-character separator. */
module Text {

  /** The characters Python's `str.isspace()` accepts: what `str.strip()` removes and
      what `str.split()` splits on. */
  predicate IsSpace(c: char) {
    || ('\t' <= c <= '\r')
    || ('\U{1C}' <= c <= ' ')
    || c == '\U{85}' || c == '\U{A0}' || c == '\U{1680}'
    || ('\U{2000}' <= c <= '\U{200A}')
    || c == '\U{2028}' || c == '\U{2029}' || c == '\U{202F}' || c == '\U{205F}' || c == '\U{3000}'
  }

  predicate AllSpace(s: string) {
    forall i :: 0 <= i < |s| ==> IsSpace(s[i])
  }

  predicate NoSpace(s: string) {
    forall i :: 0 <= i < |s| ==> !IsSpace(s[i])
  }

  /** `s.lstrip()`: drops leading whitespace. */
  function TrimStart(s: string): (r: string)
    ensures |r| <= |s|
    ensures r == [] || !IsSpace(r[0])
  {
    if s != [] && IsSpace(s[0]) then TrimStart(s[1..]) else s
  }

  /** `s.rstrip()`: drops trailing whitespace. */
  function TrimEnd(s: string): (r: string)
    ensures |r| <= |s|
    ensures r != [] ==> r[0] == s[0]
    ensures r == [] || !IsSpace(r[|r| - 1])
  {
    if s != [] && IsSpace(s[|s| - 1]) then TrimEnd(s[..|s| - 1]) else s
  }

  /** `s.strip()`. */
  function Strip(s: string): (r: string)
    ensures |r| <= |s|
    ensures r == [] || (!IsSpace(r[0]) && !IsSpace(r[|r| - 1]))
  {
    TrimEnd(TrimStart(s))
  }

  /** `lstrip()` leaves nothing only when there was nothing but whitespace. */
  lemma {:induction false} TrimStartEmpty(s: string)
    ensures TrimStart(s) == [] ==> AllSpace(s)
  {
    if s != [] && IsSpace(s[0]) {
      TrimStartEmpty(s[1..]);
      assert forall i :: 1 <= i < |s| ==> s[i] == s[1..][i - 1];
    }
  }

  /** `rstrip()` leaves nothing only when there was nothing but whitespace. */
  lemma {:induction false} TrimEndEmpty(s: string)
    ensures TrimEnd(s) == [] ==> AllSpace(s)
  {
    if s != [] && IsSpace(s[|s| - 1]) {
      TrimEndEmpty(s[..|s| - 1]);
      assert forall i :: 0 <= i < |s| - 1 ==> s[i] == s[..|s| - 1][i];
    }
  }

  lemma {:induction false} TrimStartOf(pad: string, t: string)
    requires AllSpace(pad)
    requires t == [] || !IsSpace(t[0])
    ensures TrimStart(pad + t) == t
  {
    if pad != [] {
      assert (pad + t)[1..] == pad[1..] + t;
      TrimStartOf(pad[1..], t);
    }
  }

  lemma {:induction false} TrimEndOf(t: string, pad: string)
    requires AllSpace(pad)
    requires t == [] || !IsSpace(t[|t| - 1])
    ensures TrimEnd(t + pad) == t
  {
    if pad != [] {
      var pad' := pad[..|pad| - 1];
      assert (t + pad)[..|t + pad| - 1] == t + pad';
      TrimEndOf(t, pad');
    } else {
      assert t + pad == t;
    }
  }

  /** `strip()` removes exactly the surrounding whitespace: whatever the decomposition of
      a string into whitespace, a core that neither starts nor ends with whitespace, and
      whitespace, the result is that core. */
  lemma StripOf(front: string, core: string, back: string)
    requires AllSpace(front) && AllSpace(back)
    requires core == [] || (!IsSpace(core[0]) && !IsSpace(core[|core| - 1]))
    ensures Strip(front + core + back) == core
  {
    if core == [] {
      assert front + core + back == front + back;
      AllSpaceTrimsToEmpty(front + back);
    } else {
      assert front + core + back == front + (core + back);
      TrimStartOf(front, core + back);
      TrimEndOf(core, back);
    }
  }

  lemma AllSpaceTrimsToEmpty(s: string)
    requires AllSpace(s)
    ensures TrimStart(s) == []
  {
    TrimStartOf(s, []);
    assert s + [] == s;
  }

  /** A string strips to nothing exactly when all of it is whitespace. */
  lemma StripEmptyIffAllSpace(s: string)
    ensures Strip(s) == [] <==> AllSpace(s)
  {
    TrimStartEmpty(s);
    TrimEndEmpty(TrimStart(s));
    if AllSpace(s) {
      AllSpaceTrimsToEmpty(s);
    }
  }

  /** Stripping twice is stripping once. */
  lemma StripIdempotent(s: string)
    ensures Strip(Strip(s)) == Strip(s)
  {
    var r := Strip(s);
    var none: string := [];
    assert AllSpace(none);
    assert r == [] || (!IsSpace(r[0]) && !IsSpace(r[|r| - 1]));
    assert none + r + none == r;
    StripOf(none, r, none);
  }

  /** The longest prefix of `s` free of whitespace. */
  function Word(s: string): (w: string)
    ensures w <= s && NoSpace(w)
    ensures |w| == |s| || IsSpace(s[|w|])
    ensures s != [] && !IsSpace(s[0]) ==> w != []
  {
    if s == [] || IsSpace(s[0]) then [] else [s[0]] + Word(s[1..])
  }

  /** `s.split()`: the maximal runs of non-whitespace characters of `s`, in order; it
      never yields an empty token. */
  function Words(s: string): seq<string>
    decreases |s|
  {
    var t := TrimStart(s);
    if t == [] then []
    else
      var w := Word(t);
      [w] + Words(t[|w|..])
  }

  /** Every token is non-empty and free of whitespace. */
  lemma {:induction false} WordsAreTokens(s: string)
    ensures forall i :: 0 <= i < |Words(s)| ==> Words(s)[i] != [] && NoSpace(Words(s)[i])
    decreases |s|
  {
    var t := TrimStart(s);
    if t != [] {
      var w := Word(t);
      var rest := t[|w|..];
      WordsAreTokens(rest);
      var ws := Words(s);
      assert ws == [w] + Words(rest);
      forall i | 0 <= i < |ws|
        ensures ws[i] != [] && NoSpace(ws[i])
      {
        if i > 0 {
          assert ws[i] == Words(rest)[i - 1];
        }
      }
    }
  }

  lemma {:induction false} WordOf(w: string, rest: string)
    requires NoSpace(w)
    requires rest == [] || IsSpace(rest[0])
    ensures Word(w + rest) == w
  {
    if w == [] {
      assert w + rest == rest;
    } else {
      assert (w + rest)[1..] == w[1..] + rest;
      WordOf(w[1..], rest);
    }
  }

  /** The first token of a string is its first maximal run of non-whitespace characters,
      and the tokens after it are the tokens of what follows that run. */
  lemma WordsOf(pad: string, w: string, rest: string)
    requires AllSpace(pad) && w != [] && NoSpace(w)
    requires rest == [] || IsSpace(rest[0])
    ensures Words(pad + w + rest) == [w] + Words(rest)
  {
    assert pad + w + rest == pad + (w + rest);
    TrimStartOf(pad, w + rest);
    WordOf(w, rest);
    assert (w + rest)[|w|..] == rest;
  }

  /** A string has no tokens exactly when all of it is whitespace. */
  lemma WordsEmptyIffAllSpace(s: string)
    ensures Words(s) == [] <==> AllSpace(s)
  {
    TrimStartEmpty(s);
    if AllSpace(s) {
      AllSpaceTrimsToEmpty(s);
    }
  }

  /** Leading whitespace does not change the tokens. */
  lemma WordsAfterSpace(c: char, rest: string)
    requires IsSpace(c)
    ensures Words([c] + rest) == Words(rest)
  {
    assert ([c] + rest)[1..] == rest;
  }

  /** `sep.join(fs)`. */
  function JoinWith(fs: seq<string>, sep: char): (s: string)
  {
    if fs == [] then []
    else if |fs| == 1 then fs[0]
    else fs[0] + [sep] + JoinWith(fs[1..], sep)
  }

  /** Splitting on whitespace undoes joining with single spaces, for tokens that are
      non-empty and free of whitespace. */
  lemma {:induction false} WordsOfJoin(ws: seq<string>)
    requires forall i :: 0 <= i < |ws| ==> ws[i] != [] && NoSpace(ws[i])
    ensures Words(JoinWith(ws, ' ')) == ws
  {
    if ws == [] {
      AllSpaceTrimsToEmpty([]);
    } else if |ws| == 1 {
      WordAlone(ws[0]);
    } else {
      var rest := JoinWith(ws[1..], ' ');
      assert JoinWith(ws, ' ') == [] + ws[0] + ([' '] + rest);
      WordsOf([], ws[0], [' '] + rest);
      WordsAfterSpace(' ', rest);
      forall i | 0 <= i < |ws[1..]|
        ensures ws[1..][i] != [] && NoSpace(ws[1..][i])
      {
        assert ws[1..][i] == ws[i + 1];
      }
      WordsOfJoin(ws[1..]);
    }
  }

  lemma WordAlone(w: string)
    requires w != [] && NoSpace(w)
    ensures Words(w) == [w]
  {
    assert [] + w + [] == w;
    WordsOf([], w, []);
    AllSpaceTrimsToEmpty([]);
  }

  /** `s.split(sep)` for a one-character separator: the pieces between separators, one
      more than there are separators, none of them containing the separator. */
  function Fields(s: string, sep: char): (fs: seq<string>)
    ensures fs != []
  {
    if s == [] then [[]]
    else
      var rest := Fields(s[1..], sep);
      if s[0] == sep then [[]] + rest else [[s[0]] + rest[0]] + rest[1..]
  }

  /** There is one more field than there are separators, and no field contains the
      separator. */
  lemma {:induction false} FieldsCount(s: string, sep: char)
    ensures |Fields(s, sep)| == multiset(s)[sep] + 1
    ensures forall i :: 0 <= i < |Fields(s, sep)| ==> sep !in Fields(s, sep)[i]
  {
    if s != [] {
      var rest := Fields(s[1..], sep);
      FieldsCount(s[1..], sep);
      assert s == [s[0]] + s[1..];
      assert multiset(s) == multiset([s[0]]) + multiset(s[1..]);
      var fs := Fields(s, sep);
      if s[0] == sep {
        assert forall i :: 1 <= i < |fs| ==> fs[i] == rest[i - 1];
      } else {
        assert forall i :: 1 <= i < |fs| ==> fs[i] == rest[i];
        assert fs[0] == [s[0]] + rest[0];
      }
    }
  }

  /** A string holding the separator has at least two fields. */
  lemma {:induction false} FieldsOfSeparated(s: string, sep: char)
    requires sep in s
    ensures |Fields(s, sep)| >= 2
  {
    if s[0] != sep {
      assert s == [s[0]] + s[1..];
      FieldsOfSeparated(s[1..], sep);
    }
  }

  /** Joining the pieces with the separator gives back the string. */
  lemma {:induction false} JoinFields(s: string, sep: char)
    ensures JoinWith(Fields(s, sep), sep) == s
  {
    if s != [] {
      var rest := Fields(s[1..], sep);
      JoinFields(s[1..], sep);
      var fs := Fields(s, sep);
      assert s == [s[0]] + s[1..];
      if s[0] == sep {
        assert fs == [[]] + rest;
        assert fs[1..] == rest;
        assert JoinWith(fs, sep) == [] + [sep] + JoinWith(rest, sep);
      } else if |rest| == 1 {
        assert fs == [[s[0]] + rest[0]];
        assert JoinWith(rest, sep) == rest[0];
      } else {
        assert fs == [[s[0]] + rest[0]] + rest[1..];
        assert fs[1..] == rest[1..];
        assert JoinWith(fs, sep) == [s[0]] + rest[0] + [sep] + JoinWith(rest[1..], sep);
        assert JoinWith(rest, sep) == rest[0] + [sep] + JoinWith(rest[1..], sep);
      }
    }
  }

  lemma {:induction false} FieldsOfPlain(s: string, sep: char)
    requires sep !in s
    ensures Fields(s, sep) == [s]
  {
    if s != [] {
      FieldsOfPlain(s[1..], sep);
      assert [s[0]] + s[1..] == s;
    }
  }

  /** A piece free of the separator, followed by the separator, is the first field. */
  lemma {:induction false} FieldsOfCons(a: string, sep: char, b: string)
    requires sep !in a
    ensures Fields(a + [sep] + b, sep) == [a] + Fields(b, sep)
  {
    if a == [] {
      assert a + [sep] + b == [sep] + b;
      assert ([sep] + b)[1..] == b;
    } else {
      assert (a + [sep] + b)[1..] == a[1..] + [sep] + b;
      FieldsOfCons(a[1..], sep, b);
      assert [a[0]] + a[1..] == a;
    }
  }

  /** The first field of a string is everything before its first separator. */
  lemma FieldsHead(s: string, sep: char, q: nat)
    requires q <= |s| && sep !in s[..q] && (q == |s| || s[q] == sep)
    ensures Fields(s, sep)[0] == s[..q]
  {
    if q == |s| {
      assert s[..q] == s;
      FieldsOfPlain(s, sep);
    } else {
      assert s == s[..q] + [sep] + s[q + 1..];
      FieldsOfCons(s[..q], sep, s[q + 1..]);
    }
  }

  /** The second field of a string that contains the separator is the text between its
      first separator and the next one, or the end of the string when there is no next one. */
  lemma SecondField(s: string, sep: char, p: nat, q: nat)
    requires p < q <= |s|
    requires s[p] == sep && sep !in s[..p]
    requires sep !in s[p + 1..q] && (q == |s| || s[q] == sep)
    ensures |Fields(s, sep)| >= 2 && Fields(s, sep)[1] == s[p + 1..q]
  {
    var tail := s[p + 1..];
    assert s == s[..p] + [sep] + tail;
    FieldsOfCons(s[..p], sep, tail);
    assert tail[..q - p - 1] == s[p + 1..q];
    FieldsHead(tail, sep, q - p - 1);
  }
}
