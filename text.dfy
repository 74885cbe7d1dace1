/**
 * The JavaScript string built-ins the core relies on, over `string`
 * (one `char` per Unicode scalar value, where JavaScript counts UTF-16 code
 * units; the two agree on `\w`, on splitting at `,` and on comparison
 * order for the strings the core handles): the `\w` character class,
 * `Array.prototype.join` and `String.prototype.split` with a one-character
 * separator, and the `if (tag)` test that drops empty strings.
 */
module Text {

  /** `\w` of a regular expression without the `u` flag: `[A-Za-z0-9_]`. */
  predicate IsWordChar(c: char) {
    ('a' <= c <= 'z') || ('A' <= c <= 'Z') || ('0' <= c <= '9') || c == '_'
  }

  /** `pieces.join(sep)`: the pieces with `sep` between neighbours; `[].join(sep)` is "". */
  function Join(pieces: seq<string>, sep: char): (s: string)
    ensures s == "" <==> pieces == [] || pieces == [""]
    decreases |pieces|
  {
    if pieces == [] then ""
    else if |pieces| == 1 then pieces[0]
    else pieces[0] + [sep] + Join(pieces[1..], sep)
  }

  /** Joining separator-free pieces puts exactly one separator between each two neighbours. */
  lemma {:induction false} JoinSeparators(pieces: seq<string>, sep: char)
    requires forall i :: 0 <= i < |pieces| ==> sep !in pieces[i]
    ensures multiset(Join(pieces, sep))[sep] == if pieces == [] then 0 else |pieces| - 1
    decreases |pieces|
  {
    if |pieces| > 1 {
      JoinSeparators(pieces[1..], sep);
      assert sep !in pieces[0];
      assert Join(pieces, sep) == pieces[0] + [sep] + Join(pieces[1..], sep);
    } else if |pieces| == 1 {
      assert sep !in pieces[0];
    }
  }

  /**
   * `s.split(sep)`: the maximal separator-free pieces of `s`, in order. There is
   * always at least one piece: `"".split(",")` is `[""]`, and two adjacent
   * separators give an empty piece between them.
   */
  function Split(s: string, sep: char): (pieces: seq<string>)
    ensures |pieces| >= 1
    ensures forall i :: 0 <= i < |pieces| ==> sep !in pieces[i]
    decreases |s|
  {
    if s == [] then [""]
    else
      var rest := Split(s[1..], sep);
      if s[0] == sep then [""] + rest
      else [[s[0]] + rest[0]] + rest[1..]
  }

  /** The pieces that pass a JavaScript truthiness test, i.e. the non-empty ones, in order. */
  function NonEmpty(pieces: seq<string>): (kept: seq<string>)
    ensures forall i :: 0 <= i < |kept| ==> kept[i] != "" && kept[i] in pieces
    ensures forall p :: multiset(kept)[p] == if p == "" then 0 else multiset(pieces)[p]
    decreases |pieces|
  {
    if pieces == [] then []
    else
      var init := NonEmpty(pieces[..|pieces| - 1]);
      assert pieces == pieces[..|pieces| - 1] + [pieces[|pieces| - 1]];
      if pieces[|pieces| - 1] == "" then init else init + [pieces[|pieces| - 1]]
  }

  /** Splitting then joining with the same separator gives back the string. */
  lemma {:induction false} JoinOfSplit(s: string, sep: char)
    ensures Join(Split(s, sep), sep) == s
    decreases |s|
  {
    if s != [] {
      var rest := Split(s[1..], sep);
      JoinOfSplit(s[1..], sep);
      if s[0] == sep {
        assert Split(s, sep) == [""] + rest;
        assert ([""] + rest)[1..] == rest;
        assert s == [sep] + s[1..];
      } else {
        var pieces := [[s[0]] + rest[0]] + rest[1..];
        assert Split(s, sep) == pieces;
        assert pieces[1..] == rest[1..];
        if |rest| == 1 {
          assert s == [s[0]] + s[1..];
        } else {
          assert rest == [rest[0]] + rest[1..];
          assert Join(rest, sep) == rest[0] + [sep] + Join(rest[1..], sep);
          assert s == [s[0]] + s[1..];
        }
      }
    }
  }

  /** Splitting `a + rest` where `a` holds no separator glues `a` onto the first piece of `rest`. */
  lemma {:induction false} SplitSeparatorFreePrefix(a: string, rest: string, sep: char)
    requires sep !in a
    ensures Split(a + rest, sep) == [a + Split(rest, sep)[0]] + Split(rest, sep)[1..]
    decreases |a|
  {
    if a != [] {
      assert (a + rest)[1..] == a[1..] + rest;
      assert (a + rest)[0] == a[0];
      SplitSeparatorFreePrefix(a[1..], rest, sep);
      assert [a[0]] + (a[1..] + Split(rest, sep)[0]) == a + Split(rest, sep)[0];
    } else {
      var ps := Split(rest, sep);
      assert a + rest == rest;
      assert a + ps[0] == ps[0];
      assert ps == [ps[0]] + ps[1..];
    }
  }

  /**
   * Joining separator-free pieces and splitting again gives back the pieces
   * (empty pieces included), as long as there is at least one piece.
   */
  lemma {:induction false} SplitOfJoin(pieces: seq<string>, sep: char)
    requires |pieces| >= 1
    requires forall i :: 0 <= i < |pieces| ==> sep !in pieces[i]
    ensures Split(Join(pieces, sep), sep) == pieces
    decreases |pieces|
  {
    var a := pieces[0];
    if |pieces| == 1 {
      SplitSeparatorFreePrefix(a, "", sep);
      assert a + "" == a;
    } else {
      var tail := Join(pieces[1..], sep);
      SplitOfJoin(pieces[1..], sep);
      assert Join(pieces, sep) == a + ([sep] + tail);
      SplitSeparatorFreePrefix(a, [sep] + tail, sep);
      assert ([sep] + tail)[1..] == tail;
      assert Split([sep] + tail, sep) == [""] + pieces[1..];
      assert a + "" == a;
      assert pieces == [a] + pieces[1..];
    }
  }

  /** Dropping empty pieces keeps a list that has none exactly as it is. */
  lemma {:induction false} NonEmptyKeepsNonEmpty(pieces: seq<string>)
    requires forall i :: 0 <= i < |pieces| ==> pieces[i] != ""
    ensures NonEmpty(pieces) == pieces
    decreases |pieces|
  {
    if pieces != [] {
      NonEmptyKeepsNonEmpty(pieces[..|pieces| - 1]);
      assert pieces[..|pieces| - 1] + [pieces[|pieces| - 1]] == pieces;
    }
  }
}
