/** Metadata-path normalisation: the mapping sheet lists field paths without
    array indices, while the flattened column headers carry `/0/` for the
    first item of every array. */
module Paths {
  import opened Seqs
  import opened Strings

  const PathSeparator: char := '/'

  /** The array-index segment the flattening tool emits. */
  const ArrayIndex: string := "0"

  /** The segments other than `ArrayIndex`, in their original order. */
  function DropArrayIndices(segments: seq<string>): (kept: seq<string>)
    ensures ArrayIndex !in kept
    ensures forall s :: s != ArrayIndex ==> multiset(kept)[s] == multiset(segments)[s]
    ensures ArrayIndex !in segments ==> kept == segments
  {
    if |segments| == 0 then []
    else
      var rest := DropArrayIndices(segments[1..]);
      assert segments == [segments[0]] + segments[1..];
      if segments[0] == ArrayIndex then rest else [segments[0]] + rest
  }

  /** Dropping distributes over concatenation, so the kept segments keep their
      relative order. */
  lemma {:induction false} DropArrayIndicesAppend(a: seq<string>, b: seq<string>)
    ensures DropArrayIndices(a + b) == DropArrayIndices(a) + DropArrayIndices(b)
    decreases |a|
  {
    if |a| > 0 {
      assert (a + b)[1..] == a[1..] + b;
      DropArrayIndicesAppend(a[1..], b);
    } else {
      assert a + b == b;
    }
  }

  /** The metadata key of a column path: split on `/`, drop every `0`
      segment, rejoin with `/`. The key's segments are the path's segments
      other than `0`, in order; it is empty when every segment was `0`. */
  function Normalize(path: string): (key: string)
    ensures var kept := DropArrayIndices(Split(path, [PathSeparator]));
      && (|kept| == 0 ==> key == "")
      && (|kept| > 0 ==> Split(key, [PathSeparator]) == kept)
  {
    var kept := DropArrayIndices(Split(path, [PathSeparator]));
    assert |kept| > 0 ==> Split(Join(kept, [PathSeparator]), [PathSeparator]) == kept by {
      if |kept| > 0 {
        NoSeparatorInSegments(path);
        DropKeepsSeparatorFree(Split(path, [PathSeparator]));
        SplitJoin(kept, PathSeparator);
      }
    }
    Join(kept, [PathSeparator])
  }

  lemma NoSeparatorInSegments(path: string)
    ensures forall k :: 0 <= k < |Split(path, [PathSeparator])| ==> PathSeparator !in Split(path, [PathSeparator])[k]
  {
    var parts := Split(path, [PathSeparator]);
    forall k | 0 <= k < |parts| ensures PathSeparator !in parts[k] {
      OccursChar(parts[k], PathSeparator);
    }
  }

  lemma DropKeepsSeparatorFree(segments: seq<string>)
    requires forall k :: 0 <= k < |segments| ==> PathSeparator !in segments[k]
    ensures forall k :: 0 <= k < |DropArrayIndices(segments)| ==> PathSeparator !in DropArrayIndices(segments)[k]
  {
    var kept := DropArrayIndices(segments);
    forall k | 0 <= k < |kept| ensures PathSeparator !in kept[k] {
      assert kept[k] in multiset(kept);
      if kept[k] != ArrayIndex {
        assert kept[k] in multiset(segments);
      }
    }
  }

  /** Normalising twice is normalising once. */
  lemma NormalizeIdempotent(path: string)
    ensures Normalize(Normalize(path)) == Normalize(path)
  {
    var kept := DropArrayIndices(Split(path, [PathSeparator]));
    if |kept| == 0 {
      assert Split("", [PathSeparator]) == [""] by {
        SplitWithoutSeparator("", [PathSeparator]);
      }
      assert DropArrayIndices([""]) == [""];
    }
  }

  /** A path without a `0` segment is its own metadata key. */
  lemma NormalizeWithoutIndex(path: string)
    requires ArrayIndex !in Split(path, [PathSeparator])
    ensures Normalize(path) == path
  {
  }

  /** A single segment other than `0` is its own metadata key. */
  lemma NormalizeSegment(segment: string)
    requires PathSeparator !in segment && segment != ArrayIndex
    ensures Normalize(segment) == segment
  {
    OccursChar(segment, PathSeparator);
    SplitWithoutSeparator(segment, [PathSeparator]);
  }

  /** Normalising a path built from separator-free segments drops exactly the
      `0` segments. */
  lemma NormalizeJoined(segments: seq<string>)
    requires |segments| >= 1
    requires forall k :: 0 <= k < |segments| ==> PathSeparator !in segments[k]
    ensures Normalize(Join(segments, [PathSeparator])) == Join(DropArrayIndices(segments), [PathSeparator])
  {
    SplitJoin(segments, PathSeparator);
  }

  /** Normalising a three-segment path drops its `0` segments. */
  lemma NormalizeThree(a: string, b: string, c: string)
    requires PathSeparator !in a && PathSeparator !in b && PathSeparator !in c
    ensures Normalize(a + [PathSeparator] + b + [PathSeparator] + c)
         == Join(DropArrayIndices([a, b, c]), [PathSeparator])
  {
    JoinThree(a, b, c);
    NormalizeJoined([a, b, c]);
  }

  lemma JoinThree(a: string, b: string, c: string)
    ensures Join([a, b, c], [PathSeparator]) == a + [PathSeparator] + b + [PathSeparator] + c
  {
    assert [a, b, c][1..] == [b, c] && [b, c][1..] == [c];
    assert Join([b, c], [PathSeparator]) == b + [PathSeparator] + c;
    assert a + [PathSeparator] + (b + [PathSeparator] + c) == a + [PathSeparator] + b + [PathSeparator] + c;
  }

  /** A column under an array item shares the metadata of the array's
      field: `a/0/b` normalises to `a/b`. */
  lemma ArrayIndexStripped(a: string, b: string)
    requires PathSeparator !in a && PathSeparator !in b
    requires a != ArrayIndex && b != ArrayIndex
    ensures Normalize(a + [PathSeparator] + ArrayIndex + [PathSeparator] + b) == a + [PathSeparator] + b
  {
    NormalizeThree(a, ArrayIndex, b);
    var segs := [a, ArrayIndex, b];
    assert segs[1..] == [ArrayIndex, b] && segs[1..][1..] == [b];
    assert DropArrayIndices([b]) == [b];
    assert DropArrayIndices(segs) == [a, b];
    assert [a, b][1..] == [b];
  }

  /** Other numerals are not array markers: `a/1/b` is its own key. */
  lemma OtherNumeralsKept(a: string, n: string, b: string)
    requires PathSeparator !in a && PathSeparator !in n && PathSeparator !in b
    requires a != ArrayIndex && n != ArrayIndex && b != ArrayIndex
    ensures Normalize(a + [PathSeparator] + n + [PathSeparator] + b) == a + [PathSeparator] + n + [PathSeparator] + b
  {
    NormalizeThree(a, n, b);
    assert DropArrayIndices([a, n, b]) == [a, n, b] by {
      assert [a, n, b][1..] == [n, b] && [n, b][1..] == [b];
      assert DropArrayIndices([b]) == [b];
    }
    JoinThree(a, n, b);
  }
}
