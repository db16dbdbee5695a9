/** Python's `str.split(sep)` and `sep.join(parts)` for a non-empty separator,
    with the round trips between them. */
module Strings {
  import opened Base
  import opened Seqs

  /** `sep` occurs in `s` starting at position `i`. */
  predicate OccursAt(s: string, sep: string, i: nat) {
    i + |sep| <= |s| && s[i..i + |sep|] == sep
  }

  ghost predicate Occurs(s: string, sep: string) {
    exists i: nat :: OccursAt(s, sep, i)
  }

  lemma OccursAtTail(s: string, sep: string, i: nat)
    requires |s| > 0
    ensures OccursAt(s, sep, i + 1) <==> OccursAt(s[1..], sep, i)
  {
    if i + 1 + |sep| <= |s| {
      assert s[1..][i..i + |sep|] == s[i + 1..i + 1 + |sep|];
    }
  }

  /** A one-character separator occurs exactly when the character does. */
  lemma OccursChar(s: string, c: char)
    ensures Occurs(s, [c]) <==> c in s
  {
    if c in s {
      var i :| 0 <= i < |s| && s[i] == c;
      assert OccursAt(s, [c], i);
    }
    if Occurs(s, [c]) {
      var i: nat :| OccursAt(s, [c], i);
      assert s[i] == s[i..i + 1][0];
    }
  }

  /** Python `s.find(sep)`: the leftmost position at which `sep` occurs. */
  function IndexOf(s: string, sep: string): (r: Option<nat>)
    ensures r.Some? ==> OccursAt(s, sep, r.value)
    ensures r.Some? ==> forall j: nat :: j < r.value ==> !OccursAt(s, sep, j)
    ensures r.None? ==> !Occurs(s, sep)
    decreases |s|
  {
    if |s| < |sep| then None
    else if s[..|sep|] == sep then Some(0)
    else
      match IndexOf(s[1..], sep)
      case None =>
        assert forall j: nat :: !OccursAt(s, sep, j) by {
          forall j: nat ensures !OccursAt(s, sep, j) {
            if j > 0 { OccursAtTail(s, sep, j - 1); }
          }
        }
        None
      case Some(i) =>
        OccursAtTail(s, sep, i);
        assert forall j: nat :: j < i + 1 ==> !OccursAt(s, sep, j) by {
          forall j: nat | j < i + 1 ensures !OccursAt(s, sep, j) {
            if j > 0 { OccursAtTail(s, sep, j - 1); }
          }
        }
        Some(i + 1)
  }

  /** The leftmost occurrence is the one `IndexOf` reports. */
  lemma IndexOfUnique(s: string, sep: string, k: nat)
    requires OccursAt(s, sep, k)
    requires forall j: nat :: j < k ==> !OccursAt(s, sep, j)
    ensures IndexOf(s, sep) == Some(k)
  {
  }

  /** Python `sep.join(parts)`: the first part, then each further part
      preceded by the separator. */
  function Join(parts: seq<string>, sep: string): string
  {
    if |parts| == 0 then ""
    else if |parts| == 1 then parts[0]
    else parts[0] + sep + Join(parts[1..], sep)
  }

  lemma NoOccurrenceBefore(s: string, sep: string, i: nat)
    requires |sep| > 0 && i <= |s|
    requires forall j: nat :: j < i ==> !OccursAt(s, sep, j)
    ensures !Occurs(s[..i], sep)
  {
    forall j: nat | OccursAt(s[..i], sep, j) ensures false {
      assert s[..i][j..j + |sep|] == s[j..j + |sep|];
      assert OccursAt(s, sep, j);
    }
  }

  /** Python `s.split(sep)`: the pieces between the leftmost non-overlapping
      occurrences of `sep`. There is always at least one piece, no piece
      contains `sep`, and joining the pieces gives back `s`. */
  function Split(s: string, sep: string): (parts: seq<string>)
    requires |sep| > 0
    ensures |parts| >= 1
    ensures forall k :: 0 <= k < |parts| ==> !Occurs(parts[k], sep)
    ensures Join(parts, sep) == s
    decreases |s|
  {
    match IndexOf(s, sep)
    case None => [s]
    case Some(i) =>
      NoOccurrenceBefore(s, sep, i);
      var rest := Split(s[i + |sep|..], sep);
      var parts := [s[..i]] + rest;
      assert parts[1..] == rest;
      assert s == s[..i] + sep + s[i + |sep|..] by {
        assert s[i..i + |sep|] == sep;
        assert s == s[..i] + s[i..i + |sep|] + s[i + |sep|..];
      }
      parts
  }

  /** A string without the separator splits into itself. */
  lemma SplitWithoutSeparator(s: string, sep: string)
    requires |sep| > 0 && !Occurs(s, sep)
    ensures Split(s, sep) == [s]
  {
  }

  /** The first piece of a split is a prefix of the split string. */
  lemma JoinHeadPrefix(parts: seq<string>, sep: string)
    requires |parts| >= 1
    ensures parts[0] <= Join(parts, sep)
  {
  }

  /** A joined string starts with the first part, has the separator right
      after it when there is a second part, and ends with the last part. */
  lemma JoinShape(parts: seq<string>, sep: string)
    requires |parts| >= 1
    ensures var s := Join(parts, sep);
      && parts[0] <= s
      && (|parts| >= 2 ==> OccursAt(s, sep, |parts[0]|))
      && |Last(parts)| <= |s| && s[|s| - |Last(parts)|..] == Last(parts)
  {
    var s := Join(parts, sep);
    if |parts| >= 2 {
      assert s == parts[0] + sep + Join(parts[1..], sep);
      assert s[|parts[0]|..|parts[0]| + |sep|] == sep;
      var init := parts[..|parts| - 1];
      assert parts == init + [Last(parts)];
      JoinSnoc(init, sep, Last(parts));
    }
  }

  lemma JoinSnoc(parts: seq<string>, sep: string, last: string)
    requires |parts| >= 1
    ensures Join(parts + [last], sep) == Join(parts, sep) + sep + last
    decreases |parts|
  {
    if |parts| == 1 {
      assert parts + [last] == [parts[0], last];
    } else {
      assert (parts + [last])[1..] == parts[1..] + [last];
      JoinSnoc(parts[1..], sep, last);
    }
  }

  /** For a one-character separator, splitting undoes joining whenever no
      piece contains the separator. */
  lemma {:induction false} SplitJoin(parts: seq<string>, c: char)
    requires |parts| >= 1
    requires forall k :: 0 <= k < |parts| ==> c !in parts[k]
    ensures Split(Join(parts, [c]), [c]) == parts
    decreases |parts|
  {
    var s := Join(parts, [c]);
    if |parts| == 1 {
      OccursChar(parts[0], c);
      SplitWithoutSeparator(parts[0], [c]);
    } else {
      var p := parts[0];
      var tail := Join(parts[1..], [c]);
      assert s == p + [c] + tail;
      assert OccursAt(s, [c], |p|) by { assert s[|p|..|p| + 1] == [c]; }
      forall j: nat | j < |p| ensures !OccursAt(s, [c], j) {
        assert s[j] == p[j];
        assert s[j..j + 1][0] == s[j];
      }
      IndexOfUnique(s, [c], |p|);
      assert s[..|p|] == p;
      assert s[|p| + 1..] == tail;
      SplitJoin(parts[1..], c);
    }
  }

  /** The first piece of a split runs up to the first separator, or is the
      whole string when there is none. */
  lemma SplitFirstPiece(s: string, c: char)
    ensures var head := Split(s, [c])[0];
      && head <= s
      && c !in head
      && (head == s || s[|head|] == c)
  {
    var parts := Split(s, [c]);
    OccursChar(parts[0], c);
    if |parts| > 1 {
      assert s == parts[0] + [c] + Join(parts[1..], [c]);
    }
  }

  /** A string made of a separator-free head, the separator and anything
      after splits into a first piece equal to that head. */
  lemma SplitHead(head: string, c: char, rest: string)
    requires c !in head
    ensures Split(head + [c] + rest, [c])[0] == head
  {
    var s := head + [c] + rest;
    assert OccursAt(s, [c], |head|) by { assert s[|head|..|head| + 1] == [c]; }
    forall j: nat | j < |head| ensures !OccursAt(s, [c], j) {
      assert s[j] == head[j];
      assert s[j..j + 1][0] == s[j];
    }
    IndexOfUnique(s, [c], |head|);
    assert s[..|head|] == head;
  }

  /** The last piece of a split is a separator-free suffix of the string,
      and it is either the whole string or preceded by the separator. */
  lemma LastPieceSuffix(s: string, c: char)
    ensures var last := Last(Split(s, [c]));
      && |last| <= |s|
      && s[|s| - |last|..] == last
      && c !in last
      && (|last| == |s| || s[|s| - |last| - 1] == c)
  {
    var parts := Split(s, [c]);
    var last := Last(parts);
    OccursChar(last, c);
    if |parts| > 1 {
      var init := parts[..|parts| - 1];
      assert parts == init + [last];
      JoinSnoc(init, [c], last);
      assert s == Join(init, [c]) + [c] + last;
    }
  }
}
