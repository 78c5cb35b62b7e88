/** Splitting and joining text on a one-character separator, as JavaScript's `split` and `join` do. */
module Segments {

  /** The pieces of `text` between occurrences of `sep`; an empty text has one empty piece. */
  function Split(text: string, sep: char): (parts: seq<string>)
    ensures |parts| >= 1
    ensures forall p | p in parts :: sep !in p
  {
    if text == "" then [""]
    else
      var rest := Split(text[1..], sep);
      if text[0] == sep then [""] + rest else [[text[0]] + rest[0]] + rest[1..]
  }

  function Join(parts: seq<string>, sep: char): string {
    if |parts| == 0 then ""
    else if |parts| == 1 then parts[0]
    else parts[0] + [sep] + Join(parts[1..], sep)
  }

  lemma {:induction false} JoinSplit(text: string, sep: char)
    ensures Join(Split(text, sep), sep) == text
  {
    if text == "" {
    } else {
      JoinSplit(text[1..], sep);
      var rest := Split(text[1..], sep);
      if text[0] == sep {
        assert ([""] + rest)[1..] == rest;
      } else {
        var parts := [[text[0]] + rest[0]] + rest[1..];
        assert parts[1..] == rest[1..];
        assert text == [text[0]] + text[1..];
      }
    }
  }

  /** Splitting distributes over a separator written between two texts. */
  lemma {:induction false} SplitAround(a: string, sep: char, b: string)
    ensures Split(a + [sep] + b, sep) == Split(a, sep) + Split(b, sep)
  {
    var whole := a + [sep] + b;
    if a == "" {
      assert whole[0] == sep && whole[1..] == b;
    } else {
      assert whole[0] == a[0] && whole[1..] == a[1..] + [sep] + b;
      SplitAround(a[1..], sep, b);
      var rest, tail := Split(a[1..], sep), Split(b, sep);
      if a[0] == sep {
        assert [""] + (rest + tail) == ([""] + rest) + tail;
      } else {
        var head := [a[0]] + rest[0];
        assert (rest + tail)[1..] == rest[1..] + tail;
        assert [head] + (rest[1..] + tail) == ([head] + rest[1..]) + tail;
      }
    }
  }

  lemma {:induction false} SplitPlain(text: string, sep: char)
    requires sep !in text
    ensures Split(text, sep) == [text]
  {
    if text == "" {
    } else {
      SplitPlain(text[1..], sep);
      assert text == [text[0]] + text[1..];
    }
  }

  /** Splitting undoes joining when no piece contains the separator. */
  lemma {:induction false} SplitJoin(parts: seq<string>, sep: char)
    requires |parts| >= 1
    requires forall p | p in parts :: sep !in p
    ensures Split(Join(parts, sep), sep) == parts
  {
    SplitPlain(parts[0], sep);
    if |parts| == 1 {
      assert parts == [parts[0]];
    } else {
      SplitAround(parts[0], sep, Join(parts[1..], sep));
      SplitJoin(parts[1..], sep);
      assert parts == [parts[0]] + parts[1..];
    }
  }

  /** The non-empty pieces, in order. */
  function NonEmpty(parts: seq<string>): (kept: seq<string>)
    ensures forall p | p in kept :: p != "" && p in parts
    ensures |kept| <= |parts|
  {
    if parts == [] then []
    else (if parts[0] == "" then [] else [parts[0]]) + NonEmpty(parts[1..])
  }

  lemma {:induction false} NonEmptyConcat(a: seq<string>, b: seq<string>)
    ensures NonEmpty(a + b) == NonEmpty(a) + NonEmpty(b)
  {
    if a == [] {
      assert a + b == b;
    } else {
      assert (a + b)[1..] == a[1..] + b;
      NonEmptyConcat(a[1..], b);
    }
  }

  /** Filtering changes nothing exactly when there was no empty piece. */
  lemma {:induction false} NonEmptySame(parts: seq<string>)
    ensures NonEmpty(parts) == parts <==> "" !in parts
  {
    if parts == [] {
    } else {
      NonEmptySame(parts[1..]);
      assert parts == [parts[0]] + parts[1..];
      assert "" in parts <==> parts[0] == "" || "" in parts[1..];
      if parts[0] != "" {
        assert NonEmpty(parts)[1..] == NonEmpty(parts[1..]);
      }
    }
  }
}
