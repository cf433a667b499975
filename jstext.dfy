/** The two JavaScript string primitives the command interpreter relies on:
    `String.prototype.split` with a one-character separator, and
    `String.prototype.toUpperCase` as far as it can matter for matching a verb. */
module JsText {

  /** `s.split(sep)`: the maximal runs of text between occurrences of `sep`, in order.
      There is always at least one piece, and no piece contains the separator. */
  function Split(s: string, sep: char): (parts: seq<string>)
    ensures |parts| >= 1
    ensures forall i :: 0 <= i < |parts| ==> sep !in parts[i]
    decreases |s|
  {
    if |s| == 0 then [""]
    else if s[0] == sep then [""] + Split(s[1..], sep)
    else
      var rest := Split(s[1..], sep);
      [[s[0]] + rest[0]] + rest[1..]
  }

  /** The first piece is the text before the first separator: a prefix of `s` that is all of
      `s` when there is only one piece, and is followed by the separator otherwise. */
  lemma {:induction false} SplitFirstPiece(s: string, sep: char)
    ensures var parts := Split(s, sep);
      && parts[0] <= s
      && (|parts| == 1 ==> parts[0] == s)
      && (|parts| > 1 ==> |parts[0]| < |s| && s[|parts[0]|] == sep)
    decreases |s|
  {
    if |s| > 0 && s[0] != sep {
      SplitFirstPiece(s[1..], sep);
      assert [s[0]] + s[1..] == s;
    }
  }

  /** `parts.join(sep)`, for a non-empty list of pieces. */
  function Join(parts: seq<string>, sep: char): string
    requires |parts| >= 1
    decreases |parts|
  {
    if |parts| == 1 then parts[0] else parts[0] + [sep] + Join(parts[1..], sep)
  }

  /** Splitting a text without the separator gives the text itself as the only piece. */
  lemma {:induction false} SplitNoSeparator(s: string, sep: char)
    requires sep !in s
    ensures Split(s, sep) == [s]
    decreases |s|
  {
    if |s| > 0 {
      assert sep !in s[1..];
      SplitNoSeparator(s[1..], sep);
      assert [s[0]] + s[1..] == s;
    }
  }

  /** The first piece ends at the first separator; the rest is the split of what follows it. */
  lemma {:induction false} SplitAtFirst(s: string, sep: char, k: nat)
    requires k < |s| && s[k] == sep && sep !in s[..k]
    ensures Split(s, sep) == [s[..k]] + Split(s[k + 1..], sep)
    decreases k
  {
    if k > 0 {
      assert s[1..][k - 1] == sep;
      assert s[1..][..k - 1] == s[1..k];
      assert sep !in s[1..][..k - 1];
      SplitAtFirst(s[1..], sep, k - 1);
      assert s[1..][k..] == s[k + 1..];
      assert [s[0]] + s[1..k] == s[..k];
    }
  }

  /** The second piece runs from just after the first separator up to the second separator,
      or to the end. */
  lemma SplitSecond(s: string, sep: char)
    requires |Split(s, sep)| > 1
    ensures var parts := Split(s, sep);
      var k := |parts[0]| + 1 + |parts[1]|;
      && k <= |s|
      && s[..k] == parts[0] + [sep] + parts[1]
      && (k == |s| || s[k] == sep)
  {
    var parts := Split(s, sep);
    var first := parts[0];
    SplitFirstPiece(s, sep);
    var k0 := |first|;
    assert s[..k0] == first;
    SplitAtFirst(s, sep, k0);
    var rest := s[k0 + 1..];
    var second := Split(rest, sep)[0];
    assert parts[1] == second;
    SplitFirstPiece(rest, sep);
    PrefixAfterSeparator(s, sep, k0, second);
  }

  /** `s[..k0]`, the separator at `k0`, and a prefix of what follows make a prefix of `s`. */
  lemma PrefixAfterSeparator(s: string, sep: char, k0: nat, second: string)
    requires k0 < |s| && s[k0] == sep && second <= s[k0 + 1..]
    ensures k0 + 1 + |second| <= |s|
    ensures s[..k0 + 1 + |second|] == s[..k0] + [sep] + second
  {
    var k := k0 + 1 + |second|;
    assert s[..k] == s[..k0] + [s[k0]] + s[k0 + 1..k];
    assert s[k0 + 1..k] == s[k0 + 1..][..|second|];
  }

  /** Joining the pieces of a split gives back the original text. */
  lemma {:induction false} JoinSplit(s: string, sep: char)
    ensures Join(Split(s, sep), sep) == s
    decreases |s|
  {
    if |s| > 0 {
      var rest := Split(s[1..], sep);
      JoinSplit(s[1..], sep);
      if s[0] == sep {
        assert Split(s, sep) == [""] + rest;
        assert ([""] + rest)[1..] == rest;
      } else {
        var parts := [[s[0]] + rest[0]] + rest[1..];
        assert Split(s, sep) == parts;
        if |rest| > 1 {
          assert parts[1..] == rest[1..];
        }
        assert [s[0]] + s[1..] == s;
      }
    }
  }

  /** Splitting the join of separator-free pieces gives back the pieces. */
  lemma {:induction false} SplitJoin(parts: seq<string>, sep: char)
    requires |parts| >= 1
    requires forall i :: 0 <= i < |parts| ==> sep !in parts[i]
    ensures Split(Join(parts, sep), sep) == parts
    decreases |parts|
  {
    if |parts| == 1 {
      SplitNoSeparator(parts[0], sep);
    } else {
      var s := Join(parts, sep);
      var k := |parts[0]|;
      assert s == parts[0] + [sep] + Join(parts[1..], sep);
      assert s[..k] == parts[0];
      assert s[k + 1..] == Join(parts[1..], sep);
      SplitAtFirst(s, sep, k);
      SplitJoin(parts[1..], sep);
      assert [parts[0]] + parts[1..] == parts;
    }
  }

  /** The ASCII lower-case letters. */
  predicate IsAsciiLower(c: char) { 'a' <= c <= 'z' }

  /** The ASCII upper-case letters. */
  predicate IsAsciiUpper(c: char) { 'A' <= c <= 'Z' }

  /** The lower-case partner of an ASCII upper-case letter. */
  function ToAsciiLower(c: char): char
    requires IsAsciiUpper(c)
  {
    (c as int - 'A' as int + 'a' as int) as char
  }

  /** The upper-case mapping of one character: ASCII letters, and the few other characters
      whose upper case is spelt only with letters of the verbs GET, POST and DELETE
      (sharp s, long s and the two s-t ligatures). Every other character is kept. */
  function UpperChar(c: char): (u: string)
    ensures 1 <= |u| <= 2
  {
    if IsAsciiLower(c) then [(c as int - 'a' as int + 'A' as int) as char]
    else if c == 'ß' then "SS"
    else if c == 'ſ' then "S"
    else if c == 'ﬅ' || c == 'ﬆ' then "ST"
    else [c]
  }

  /** `s.toUpperCase()`, character by character. A character never disappears, so a
      non-empty text stays non-empty, and none grows beyond two characters. */
  function Upper(s: string): (u: string)
    ensures |s| <= |u| <= 2 * |s|
    decreases |s|
  {
    if |s| == 0 then "" else UpperChar(s[0]) + Upper(s[1..])
  }

  /** `m` spells the upper-case word `w` with any mix of ASCII cases. */
  predicate CaseVariant(m: string, w: string)
    requires forall i :: 0 <= i < |w| ==> IsAsciiUpper(w[i])
  {
    |m| == |w| && forall i :: 0 <= i < |m| ==> m[i] == w[i] || m[i] == ToAsciiLower(w[i])
  }

  /** Every ASCII-case variant of an upper-case word upper-cases to that word. */
  lemma {:induction false} UpperOfCaseVariant(m: string, w: string)
    requires forall i :: 0 <= i < |w| ==> IsAsciiUpper(w[i])
    requires CaseVariant(m, w)
    ensures Upper(m) == w
    decreases |m|
  {
    if |m| > 0 {
      assert CaseVariant(m[1..], w[1..]) by {
        forall i | 0 <= i < |m[1..]|
          ensures m[1..][i] == w[1..][i] || m[1..][i] == ToAsciiLower(w[1..][i])
        {
          assert m[1..][i] == m[i + 1];
        }
      }
      UpperOfCaseVariant(m[1..], w[1..]);
      assert UpperChar(m[0]) == [w[0]];
      assert [w[0]] + w[1..] == w;
    }
  }

  /** Upper-casing distributes over concatenation. */
  lemma {:induction false} UpperAppend(a: string, b: string)
    ensures Upper(a + b) == Upper(a) + Upper(b)
    decreases |a|
  {
    if |a| > 0 {
      assert (a + b)[1..] == a[1..] + b;
      UpperAppend(a[1..], b);
    } else {
      assert a + b == b;
    }
  }

  /** Upper-casing twice is upper-casing once. */
  lemma {:induction false} UpperIdempotent(s: string)
    ensures Upper(Upper(s)) == Upper(s)
    decreases |s|
  {
    if |s| > 0 {
      var head := UpperChar(s[0]);
      UpperAppend(head, Upper(s[1..]));
      UpperIdempotent(s[1..]);
      if |head| == 1 {
        assert head[1..] == "";
      } else {
        assert head[1..] == [head[1]];
        assert head[1..][1..] == "";
      }
    }
  }
}
