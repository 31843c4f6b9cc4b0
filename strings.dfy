/** Text building blocks shared by the terminal front end and the browser front end. */
module Strings {

  /**
   * `items` with `sep` between consecutive items and nothing after the last one, as
   * itertools' `join` and JavaScript's `Array.prototype.join` build it.
   */
  function Joined(items: seq<string>, sep: string): string
  {
    if |items| == 0 then ""
    else if |items| == 1 then items[0]
    else items[0] + sep + Joined(items[1..], sep)
  }

  /** Every item followed by `sep`, the last one included. */
  function Suffixed(items: seq<string>, sep: string): string
  {
    if |items| == 0 then "" else items[0] + sep + Suffixed(items[1..], sep)
  }

  /** The sum of the lengths of the items. */
  function TotalLength(items: seq<string>): nat
  {
    if |items| == 0 then 0 else |items[0]| + TotalLength(items[1..])
  }

  lemma {:induction false} SuffixedSnoc(items: seq<string>, x: string, sep: string)
    ensures Suffixed(items + [x], sep) == Suffixed(items, sep) + x + sep
  {
    if |items| == 0 {
      assert items + [x] == [x];
    } else {
      assert (items + [x])[1..] == items[1..] + [x];
      SuffixedSnoc(items[1..], x, sep);
    }
  }

  /** Concatenating the lists concatenates the texts: no item is transformed on its own. */
  lemma {:induction false} SuffixedAppend(a: seq<string>, b: seq<string>, sep: string)
    ensures Suffixed(a + b, sep) == Suffixed(a, sep) + Suffixed(b, sep)
  {
    if |a| == 0 {
      assert a + b == b;
    } else {
      assert (a + b)[1..] == a[1..] + b;
      SuffixedAppend(a[1..], b, sep);
    }
  }

  /** A separator after every item is the joined text plus one trailing separator. */
  lemma {:induction false} SuffixedIsJoinedPlusSep(items: seq<string>, sep: string)
    requires |items| > 0
    ensures Suffixed(items, sep) == Joined(items, sep) + sep
  {
    if |items| > 1 {
      SuffixedIsJoinedPlusSep(items[1..], sep);
    }
  }

  /** The joined text is as long as all items together plus one separator per gap. */
  lemma {:induction false} JoinedLength(items: seq<string>, sep: string)
    requires |items| > 0
    ensures |Joined(items, sep)| == TotalLength(items) + |sep| * (|items| - 1)
  {
    if |items| > 1 {
      JoinedLength(items[1..], sep);
    }
  }

  /** Rust's `char::is_whitespace`: the characters with the Unicode White_Space property. */
  predicate IsWhitespace(c: char)
  {
    ('\t' <= c <= '\r') || c == ' ' || c == '\U{85}' || c == '\U{A0}' || c == '\U{1680}'
    || ('\U{2000}' <= c <= '\U{200A}') || c == '\U{2028}' || c == '\U{2029}' || c == '\U{202F}'
    || c == '\U{205F}' || c == '\U{3000}'
  }

  predicate NoWhitespace(s: string)
  {
    forall k :: 0 <= k < |s| ==> !IsWhitespace(s[k])
  }

  function WhitespaceCount(s: string): nat
  {
    if |s| == 0 then 0 else (if IsWhitespace(s[0]) then 1 else 0) + WhitespaceCount(s[1..])
  }

  /**
   * Rust's `str::split(char::is_whitespace)`: the text cut at EVERY whitespace character,
   * so two adjacent whitespace characters give an empty piece, and "" gives one empty piece.
   */
  function SplitWhitespace(s: string): (pieces: seq<string>)
    ensures |pieces| == WhitespaceCount(s) + 1
    ensures forall k :: 0 <= k < |pieces| ==> NoWhitespace(pieces[k])
    decreases |s|
  {
    if |s| == 0 then [""]
    else
      var rest := SplitWhitespace(s[1..]);
      if IsWhitespace(s[0]) then [""] + rest
      else [[s[0]] + rest[0]] + rest[1..]
  }

  lemma {:induction false} SplitPlain(a: string)
    requires NoWhitespace(a)
    ensures SplitWhitespace(a) == [a]
  {
    if |a| > 0 {
      SplitPlain(a[1..]);
      assert [a[0]] + a[1..] == a;
    }
  }

  /** Cutting at one whitespace character splits the two sides independently. */
  lemma {:induction false} SplitAround(a: string, w: char, b: string)
    requires IsWhitespace(w)
    ensures SplitWhitespace(a + [w] + b) == SplitWhitespace(a) + SplitWhitespace(b)
    decreases |a|
  {
    var s := a + [w] + b;
    if |a| == 0 {
      assert s == [w] + b;
      assert s[1..] == b;
    } else {
      assert s[0] == a[0];
      assert s[1..] == a[1..] + [w] + b;
      SplitAround(a[1..], w, b);
    }
  }

  /** A leading whitespace character leaves an empty first piece. */
  lemma SplitLeading(w: char, b: string)
    requires IsWhitespace(w)
    ensures SplitWhitespace([w] + b) == [""] + SplitWhitespace(b)
  {
    assert ([w] + b)[1..] == b;
  }

  /** Whitespace-free names joined with " " split back into the same names. */
  lemma {:induction false} SplitJoined(names: seq<string>)
    requires |names| > 0
    requires forall k :: 0 <= k < |names| ==> NoWhitespace(names[k])
    ensures SplitWhitespace(Joined(names, " ")) == names
  {
    if |names| == 1 {
      SplitPlain(names[0]);
    } else {
      SplitJoined(names[1..]);
      SplitPlain(names[0]);
      assert Joined(names, " ") == names[0] + [' '] + Joined(names[1..], " ");
      SplitAround(names[0], ' ', Joined(names[1..], " "));
      assert [names[0]] + names[1..] == names;
    }
  }

  /** Conversely, a text whose only whitespace is ' ' is the join of its pieces. */
  lemma {:induction false} JoinedSplit(s: string)
    requires forall k :: 0 <= k < |s| && IsWhitespace(s[k]) ==> s[k] == ' '
    ensures Joined(SplitWhitespace(s), " ") == s
    decreases |s|
  {
    if |s| > 0 {
      var rest := SplitWhitespace(s[1..]);
      JoinedSplit(s[1..]);
      assert Joined(rest, " ") == s[1..];
      if IsWhitespace(s[0]) {
        assert SplitWhitespace(s) == [""] + rest;
        assert ([""] + rest)[1..] == rest;
        assert Joined([""] + rest, " ") == "" + " " + Joined(rest, " ");
      } else {
        var pieces := [[s[0]] + rest[0]] + rest[1..];
        assert SplitWhitespace(s) == pieces;
        if |rest| == 1 {
          assert Joined(pieces, " ") == [s[0]] + Joined(rest, " ");
        } else {
          assert pieces[1..] == rest[1..];
          assert Joined(pieces, " ") == [s[0]] + Joined(rest, " ");
        }
      }
    }
  }

  /** A prefix one element longer is the shorter prefix and that element. */
  lemma TakeOneMore<T>(s: seq<T>, k: nat)
    requires k < |s|
    ensures s[..k + 1] == s[..k] + [s[k]]
  {
  }

  /** `n` copies of `c`. */
  function Repeat(c: char, n: nat): (r: string)
    ensures |r| == n && forall k :: 0 <= k < n ==> r[k] == c
  {
    seq(n, k => c)
  }

  /** `n` space characters. */
  function Spaces(n: nat): string
  {
    Repeat(' ', n)
  }

  function Max(a: nat, b: nat): nat
  {
    if a < b then b else a
  }

  function Digit(d: nat): char
    requires d < 10
  {
    "0123456789"[d]
  }

  /** The decimal text of `n`, as Rust's `{}` formats an unsigned integer. */
  function Decimal(n: nat): (s: string)
    ensures |s| >= 1
    ensures forall k :: 0 <= k < |s| ==> '0' <= s[k] <= '9'
  {
    if n < 10 then [Digit(n)] else Decimal(n / 10) + [Digit(n % 10)]
  }

  /** The lines that start with `prefix`, in their order. */
  function Labelled(lines: seq<string>, prefix: string): seq<string>
  {
    if |lines| == 0 then []
    else (if prefix <= lines[0] then [lines[0]] else []) + Labelled(lines[1..], prefix)
  }

  lemma {:induction false} LabelledAppend(a: seq<string>, b: seq<string>, prefix: string)
    ensures Labelled(a + b, prefix) == Labelled(a, prefix) + Labelled(b, prefix)
  {
    if |a| == 0 {
      assert a + b == b;
    } else {
      assert (a + b)[1..] == a[1..] + b;
      LabelledAppend(a[1..], b, prefix);
    }
  }
}
