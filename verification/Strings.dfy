/**
 Splitting, joining and replacing in flashlight/lib/common/String.cpp and String.h.

 A string splits at a delimiter in exactly one way when delimiters are taken from left to
 right; splitting finds the pieces, joining puts them together, and replacing joins the pieces
 with something else.
 */
module Strings {
  import opened Options

  // ---------------------------------------------------------------- finding

  predicate Occurs(s: string, pattern: string, i: nat) {
    i + |pattern| <= |s| && s[i..i + |pattern|] == pattern
  }

  /** The first occurrence at or after a position, if there is any. */
  ghost predicate IsFirst(s: string, pattern: string, pos: nat, r: Option<nat>) {
    && (r.Some? ==> pos <= r.value && Occurs(s, pattern, r.value))
    && forall k: nat | pos <= k && (r.Some? ==> k < r.value) :: !Occurs(s, pattern, k)
  }

  /** std::string::find. */
  method Find(s: string, pattern: string, pos: nat) returns (r: Option<nat>)
    ensures IsFirst(s, pattern, pos, r)
  {
    var k := pos;
    while k + |pattern| <= |s|
      invariant pos <= k
      invariant forall i: nat | pos <= i < k :: !Occurs(s, pattern, i)
      decreases |s| - k
    {
      if Occurs(s, pattern, k) {
        return Some(k);
      }
      k := k + 1;
    }
    return None;
  }

  lemma {:induction false} OccursBehind(a: string, b: string, pattern: string, k: nat)
    ensures Occurs(a + b, pattern, |a| + k) <==> Occurs(b, pattern, k)
  {
  }

  lemma {:induction false} OccursInFront(a: string, b: string, pattern: string, k: nat)
    requires k + |pattern| <= |a|
    ensures Occurs(a + b, pattern, k) <==> Occurs(a, pattern, k)
  {
    assert (a + b)[k..k + |pattern|] == a[k..k + |pattern|];
  }

  // ---------------------------------------------------------------- pieces

  ghost function Joined(delim: string, pieces: seq<string>): string {
    if pieces == [] then ""
    else if |pieces| == 1 then pieces[0]
    else Joined(delim, pieces[..|pieces| - 1]) + delim + pieces[|pieces| - 1]
  }

  /** The pieces with a delimiter behind each. */
  ghost function Terminated(delim: string, pieces: seq<string>): string {
    if pieces == [] then "" else Terminated(delim, pieces[..|pieces| - 1]) + pieces[|pieces| - 1] + delim
  }

  /** The positions `at`, in increasing order, are those of the non-empty pieces, and the result lists these. */
  ghost predicate Picks(pieces: seq<string>, result: seq<string>, at: seq<nat>) {
    && |at| == |result|
    && (forall k | 0 <= k < |at| :: at[k] < |pieces| && result[k] == pieces[at[k]] && pieces[at[k]] != "")
    && (forall j, k | 0 <= j < k < |at| :: at[j] < at[k])
    && (forall i: nat {:trigger Listed(at, i)} | i < |pieces| && pieces[i] != "" :: Listed(at, i))
  }

  ghost predicate Listed(at: seq<nat>, i: nat) {
    exists k :: 0 <= k < |at| && at[k] == i
  }

  /** What is returned of the pieces: all of them, or exactly the non-empty ones in order. */
  ghost predicate Kept(ignoreEmpty: bool, pieces: seq<string>, result: seq<string>) {
    if ignoreEmpty then exists at: seq<nat> :: Picks(pieces, result, at) else result == pieces
  }

  ghost predicate Free(delim: string, s: string) {
    forall k: nat :: !Occurs(s, delim, k)
  }

  /** Put before a delimiter, the piece ends where the delimiter first occurs. */
  ghost predicate Leftmost(delim: string, piece: string) {
    forall k: nat | k < |piece| :: !Occurs(piece + delim, delim, k)
  }

  ghost predicate AllLeftmost(delim: string, pieces: seq<string>) {
    forall i | 0 <= i < |pieces| :: Leftmost(delim, pieces[i])
  }

  /** The left-to-right split: the pieces join to the string, and none could have ended earlier. */
  ghost predicate SplitsInto(delim: string, s: string, pieces: seq<string>) {
    && pieces != []
    && Joined(delim, pieces) == s
    && AllLeftmost(delim, pieces[..|pieces| - 1])
    && Free(delim, pieces[|pieces| - 1])
  }

  lemma {:induction false} JoinedLast(delim: string, pieces: seq<string>, last: string)
    ensures Joined(delim, pieces + [last]) == Terminated(delim, pieces) + last
    decreases |pieces|
  {
    var n := |pieces| - 1;
    assert (pieces + [last])[..|pieces|] == pieces;
    if n >= 0 {
      JoinedLast(delim, pieces[..n], pieces[n]);
      assert pieces[..n] + [pieces[n]] == pieces;
    }
  }

  lemma {:induction false} TerminatedLast(delim: string, pieces: seq<string>, last: string)
    ensures Terminated(delim, pieces + [last]) == Terminated(delim, pieces) + last + delim
  {
    assert (pieces + [last])[..|pieces|] == pieces;
  }

  lemma {:induction false} KeptNone(ignoreEmpty: bool)
    ensures Kept(ignoreEmpty, [], [])
  {
    assert Picks([], [], []);
  }

  lemma {:induction false} KeptLast(ignoreEmpty: bool, pieces: seq<string>, result: seq<string>, last: string)
    requires Kept(ignoreEmpty, pieces, result)
    ensures Kept(ignoreEmpty, pieces + [last], if ignoreEmpty && last == "" then result else result + [last])
  {
    if ignoreEmpty {
      var at: seq<nat> :| Picks(pieces, result, at);
      if last == "" {
        assert Picks(pieces + [last], result, at);
      } else {
        PicksLast(pieces, result, at, last);
      }
    }
  }

  lemma {:induction false} PicksLast(pieces: seq<string>, result: seq<string>, at: seq<nat>, last: string)
    requires Picks(pieces, result, at) && last != ""
    ensures Picks(pieces + [last], result + [last], at + [|pieces|])
  {
    var more := at + [|pieces|];
    forall i: nat | i < |pieces| + 1 && (pieces + [last])[i] != "" ensures Listed(more, i) {
      if i < |pieces| {
        assert Listed(at, i);
        var k :| 0 <= k < |at| && at[k] == i;
        assert more[k] == i;
      } else {
        assert more[|at|] == i;
      }
    }
  }

  /** All pieces one after the other, without delimiters. */
  ghost function Concatenation(pieces: seq<string>): string {
    if pieces == [] then "" else Concatenation(pieces[..|pieces| - 1]) + pieces[|pieces| - 1]
  }

  lemma {:induction false} PicksFront(pieces: seq<string>, result: seq<string>, at: seq<nat>)
    requires Picks(pieces, result, at) && pieces != []
    ensures var n, m := |pieces| - 1, |result| - 1;
      if pieces[n] == "" then Picks(pieces[..n], result, at)
      else m >= 0 && result[m] == pieces[n] && Picks(pieces[..n], result[..m], at[..m])
  {
    var n, m := |pieces| - 1, |result| - 1;
    if pieces[n] != "" {
      assert Listed(at, n);
      assert at[m] == n;
      forall i: nat | i < n && pieces[..n][i] != "" ensures Listed(at[..m], i) {
        assert Listed(at, i);
        var l :| 0 <= l < |at| && at[l] == i;
        assert at[..m][l] == i;
      }
    } else {
      forall i: nat | i < n && pieces[..n][i] != "" ensures Listed(at, i) {
      }
    }
  }

  lemma {:induction false} CountLast(s: seq<string>, x: string)
    requires s != []
    ensures multiset(s)[x] == multiset(s[..|s| - 1])[x] + (if s[|s| - 1] == x then 1 else 0)
  {
    assert s == s[..|s| - 1] + [s[|s| - 1]];
  }

  /** Each non-empty piece is listed as often as it occurs. */
  lemma {:induction false} PicksCount(pieces: seq<string>, result: seq<string>, at: seq<nat>, x: string)
    requires Picks(pieces, result, at) && x != ""
    ensures multiset(result)[x] == multiset(pieces)[x]
    decreases |pieces|
  {
    if pieces != [] {
      var n, m := |pieces| - 1, |result| - 1;
      PicksFront(pieces, result, at);
      CountLast(pieces, x);
      if pieces[n] == "" {
        PicksCount(pieces[..n], result, at, x);
      } else {
        PicksCount(pieces[..n], result[..m], at[..m], x);
        CountLast(result, x);
      }
    }
  }

  /** The text is all there. */
  lemma {:induction false} PicksText(pieces: seq<string>, result: seq<string>, at: seq<nat>)
    requires Picks(pieces, result, at)
    ensures Concatenation(result) == Concatenation(pieces)
    decreases |pieces|
  {
    if pieces != [] {
      var n, m := |pieces| - 1, |result| - 1;
      PicksFront(pieces, result, at);
      if pieces[n] == "" {
        PicksText(pieces[..n], result, at);
      } else {
        PicksText(pieces[..n], result[..m], at[..m]);
      }
    }
  }

  /** There is only one such list. */
  lemma {:induction false} PicksOnce(pieces: seq<string>, a: seq<string>, b: seq<string>, i: seq<nat>, j: seq<nat>)
    requires Picks(pieces, a, i) && Picks(pieces, b, j)
    ensures a == b
    decreases |pieces|
  {
    if pieces != [] {
      var n := |pieces| - 1;
      PicksFront(pieces, a, i);
      PicksFront(pieces, b, j);
      if pieces[n] == "" {
        PicksOnce(pieces[..n], a, b, i, j);
      } else {
        PicksOnce(pieces[..n], a[..|a| - 1], b[..|b| - 1], i[..|a| - 1], j[..|b| - 1]);
        assert a == a[..|a| - 1] + [a[|a| - 1]] && b == b[..|b| - 1] + [b[|b| - 1]];
      }
    }
  }

  /** A piece that ends at the first occurrence of the delimiter does not contain it. */
  lemma {:induction false} LeftmostIsFree(delim: string, piece: string)
    requires delim != "" && Leftmost(delim, piece)
    ensures Free(delim, piece)
  {
    forall k: nat ensures !Occurs(piece, delim, k) {
      if k + |delim| <= |piece| {
        OccursInFront(piece, delim, delim, k);
      }
    }
  }

  /** No piece contains the delimiter. */
  lemma {:induction false} PiecesAreFree(delim: string, s: string, pieces: seq<string>, i: nat)
    requires delim != "" && SplitsInto(delim, s, pieces) && i < |pieces|
    ensures Free(delim, pieces[i])
  {
    if i < |pieces| - 1 {
      assert pieces[..|pieces| - 1][i] == pieces[i];
      LeftmostIsFree(delim, pieces[i]);
    }
  }

  // ---------------------------------------------------------------- there is only one split

  lemma {:induction false} JoinedFirst(delim: string, pieces: seq<string>)
    requires |pieces| > 1
    ensures Joined(delim, pieces) == pieces[0] + delim + Joined(delim, pieces[1..])
    decreases |pieces|
  {
    var n := |pieces| - 1;
    if n > 1 {
      JoinedFirst(delim, pieces[..n]);
      assert pieces[..n][1..] == pieces[1..][..n - 1];
    }
  }

  lemma {:induction false} FirstOnce(s: string, pattern: string, r: Option<nat>, t: Option<nat>)
    requires IsFirst(s, pattern, 0, r) && IsFirst(s, pattern, 0, t)
    ensures r == t
  {
  }

  lemma {:induction false} FirstBehindPiece(delim: string, piece: string, rest: string)
    requires Leftmost(delim, piece)
    ensures IsFirst(piece + delim + rest, delim, 0, Some(|piece|))
  {
    var s := piece + delim + rest;
    assert s[|piece|..|piece| + |delim|] == delim;
    forall k: nat | k < |piece| ensures !Occurs(s, delim, k) {
      OccursInFront(piece + delim, rest, delim, k);
    }
  }

  lemma {:induction false} SplitTail(delim: string, s: string, pieces: seq<string>)
    requires SplitsInto(delim, s, pieces) && |pieces| > 1
    ensures s == pieces[0] + delim + Joined(delim, pieces[1..])
    ensures IsFirst(s, delim, 0, Some(|pieces[0]|))
    ensures SplitsInto(delim, Joined(delim, pieces[1..]), pieces[1..])
  {
    var n := |pieces| - 1;
    JoinedFirst(delim, pieces);
    assert Leftmost(delim, pieces[..n][0]);
    FirstBehindPiece(delim, pieces[0], Joined(delim, pieces[1..]));
    var later := pieces[1..][..n - 1];
    forall i | 0 <= i < |later| ensures Leftmost(delim, later[i]) {
      assert later[i] == pieces[..n][i + 1];
    }
  }

  lemma {:induction false} SplitWhole(delim: string, s: string, pieces: seq<string>)
    requires SplitsInto(delim, s, pieces) && |pieces| == 1
    ensures s == pieces[0] && IsFirst(s, delim, 0, None)
  {
  }

  /** A string splits in one way only. */
  lemma {:induction false} SplitsOnce(delim: string, s: string, p: seq<string>, q: seq<string>)
    requires delim != "" && SplitsInto(delim, s, p) && SplitsInto(delim, s, q)
    ensures p == q
    decreases |p|
  {
    if |p| == 1 {
      SplitWhole(delim, s, p);
    } else {
      SplitTail(delim, s, p);
    }
    if |q| == 1 {
      SplitWhole(delim, s, q);
    } else {
      SplitTail(delim, s, q);
    }
    FirstOnce(s, delim, if |p| == 1 then None else Some(|p[0]|), if |q| == 1 then None else Some(|q[0]|));
    if |p| > 1 {
      assert p[0] == s[..|p[0]|] == q[0];
      var rest := s[|p[0]| + |delim|..];
      assert rest == Joined(delim, p[1..]) == Joined(delim, q[1..]);
      SplitsOnce(delim, rest, p[1..], q[1..]);
      assert p == [p[0]] + p[1..] && q == [q[0]] + q[1..];
    }
  }

  // ---------------------------------------------------------------- the loops

  /** The string from position i on is what is left after the pieces found so far. */
  ghost predicate Found(delim: string, s: string, i: nat, done: seq<string>) {
    i <= |s| && s[..i] == Terminated(delim, done) && AllLeftmost(delim, done)
  }

  lemma {:induction false} PieceIsLeftmost(delim: string, s: string, i: nat, j: nat)
    requires i <= |s| && IsFirst(s, delim, i, Some(j))
    ensures Leftmost(delim, s[i..j])
  {
    var a, b, rest := s[..i], s[i..j], s[j + |delim|..];
    assert s == a + (b + delim + rest) by {
      assert s == s[..i] + s[i..j] + s[j..j + |delim|] + s[j + |delim|..];
    }
    forall k: nat | k < |b| ensures !Occurs(b + delim, delim, k) {
      OccursBehind(a, b + delim + rest, delim, k);
      OccursInFront(b + delim, rest, delim, k);
    }
  }

  lemma {:induction false} FoundNext(delim: string, s: string, i: nat, done: seq<string>, j: nat)
    requires Found(delim, s, i, done) && IsFirst(s, delim, i, Some(j))
    ensures Found(delim, s, j + |delim|, done + [s[i..j]])
  {
    PieceIsLeftmost(delim, s, i, j);
    TerminatedLast(delim, done, s[i..j]);
    assert s[..j + |delim|] == s[..i] + s[i..j] + s[j..j + |delim|];
  }

  lemma {:induction false} FoundLast(delim: string, s: string, i: nat, done: seq<string>)
    requires Found(delim, s, i, done) && IsFirst(s, delim, i, None)
    ensures SplitsInto(delim, s, done + [s[i..]])
  {
    var pieces := done + [s[i..]];
    JoinedLast(delim, done, s[i..]);
    assert s == s[..i] + s[i..];
    assert pieces[..|pieces| - 1] == done;
    forall k: nat ensures !Occurs(s[i..], delim, k) {
      OccursBehind(s[..i], s[i..], delim, k);
    }
  }

  /** The result of splitting: the pieces of the split, or the non-empty ones. */
  ghost predicate IsSplit(delim: string, s: string, ignoreEmpty: bool, result: seq<string>) {
    exists pieces :: SplitsInto(delim, s, pieces) && Kept(ignoreEmpty, pieces, result)
  }

  /**
   Of the pieces of a string, splitting with ignoreEmpty returns no empty one, each other one as often
   as it occurs, and all of the text.
   */
  lemma {:induction false} IgnoringEmpty(delim: string, s: string, pieces: seq<string>, result: seq<string>)
    requires delim != "" && SplitsInto(delim, s, pieces) && IsSplit(delim, s, true, result)
    ensures exists at: seq<nat> :: Picks(pieces, result, at)
    ensures "" !in result
    ensures forall x | x != "" :: multiset(result)[x] == multiset(pieces)[x]
    ensures Concatenation(result) == Concatenation(pieces)
  {
    var found :| SplitsInto(delim, s, found) && Kept(true, found, result);
    SplitsOnce(delim, s, found, pieces);
    var at: seq<nat> :| Picks(pieces, result, at);
    PicksText(pieces, result, at);
    forall x | x != "" ensures multiset(result)[x] == multiset(pieces)[x] {
      PicksCount(pieces, result, at, x);
    }
  }

  /** The loop of splitImpl for one delimiter. */
  method SplitImpl(delim: string, input: string, ignoreEmpty: bool) returns (result: seq<string>)
    requires delim != ""
    ensures IsSplit(delim, input, ignoreEmpty, result)
  {
    result := [];
    ghost var pieces: seq<string> := [];
    KeptNone(ignoreEmpty);
    var i: nat := 0;
    while true
      invariant Found(delim, input, i, pieces) && Kept(ignoreEmpty, pieces, result)
      invariant i <= |input|
      decreases |input| - i
    {
      var j := Find(input, delim, i);
      if j.None? {
        FoundLast(delim, input, i, pieces);
        break;
      }
      FoundNext(delim, input, i, pieces, j.value);
      KeptLast(ignoreEmpty, pieces, result, input[i..j.value]);
      if !(ignoreEmpty && i == j.value) {
        result := result + [input[i..j.value]];
      }
      pieces := pieces + [input[i..j.value]];
      i := j.value + |delim|;
    }
    KeptLast(ignoreEmpty, pieces, result, input[i..]);
    if !(ignoreEmpty && i == |input|) {
      result := result + [input[i..]];
    }
    pieces := pieces + [input[i..]];
  }

  /** Splitting at a character. */
  method SplitAtChar(delim: char, input: string, ignoreEmpty: bool) returns (result: seq<string>)
    ensures IsSplit([delim], input, ignoreEmpty, result)
  {
    result := SplitImpl([delim], input, ignoreEmpty);
  }

  /** Splitting at a string; an empty delimiter is an error. */
  method Split(delim: string, input: string, ignoreEmpty: bool) returns (r: Option<seq<string>>)
    ensures r.None? <==> delim == ""
    ensures r.Some? ==> IsSplit(delim, input, ignoreEmpty, r.value)
  {
    if delim == "" {
      return None;
    }
    var result := SplitImpl(delim, input, ignoreEmpty);
    return Some(result);
  }

  method Join(delim: string, pieces: seq<string>) returns (result: string)
    ensures result == Joined(delim, pieces)
    ensures pieces == [] ==> result == ""
    ensures |pieces| == 1 ==> result == pieces[0]
    ensures |pieces| > 1 ==> result == pieces[0] + delim + Joined(delim, pieces[1..])
  {
    if |pieces| > 1 {
      JoinedFirst(delim, pieces);
    }
    if pieces == [] {
      return "";
    }
    result := pieces[0];
    for i := 1 to |pieces|
      invariant result == Joined(delim, pieces[..i])
    {
      assert pieces[..i + 1][..i] == pieces[..i];
      result := result + delim;
      result := result + pieces[i];
    }
    assert pieces[..|pieces|] == pieces;
  }

  /** The edited string: the pieces found so far with the replacement behind each, then the rest of the original. */
  ghost predicate Edited(str: string, pos: nat, repl: string, done: seq<string>, original: string, q: nat) {
    q <= |original| && pos <= |str| && str[..pos] == Terminated(repl, done) && str[pos..] == original[q..]
  }

  lemma {:induction false} SameOccurrence(str: string, pos: nat, original: string, q: nat, from: string, k: nat)
    requires pos <= |str| && q <= |original| && str[pos..] == original[q..]
    ensures Occurs(original, from, q + k) <==> Occurs(str, from, pos + k)
  {
    assert str == str[..pos] + str[pos..] && original == original[..q] + original[q..];
    OccursBehind(str[..pos], str[pos..], from, k);
    OccursBehind(original[..q], original[q..], from, k);
  }

  /** The first occurrence in what is left is the same in the edited string and in the original. */
  lemma {:induction false} SameFirst(str: string, pos: nat, original: string, q: nat, from: string, r: Option<nat>)
    requires pos <= |str| && q <= |original| && str[pos..] == original[q..] && IsFirst(str, from, pos, r)
    ensures IsFirst(original, from, q, if r.None? then None else Some(r.value - pos + q))
  {
    var t := if r.None? then None else Some(r.value - pos + q);
    if t.Some? {
      SameOccurrence(str, pos, original, q, from, t.value - q);
    }
    forall k: nat | q <= k && (t.Some? ==> k < t.value) ensures !Occurs(original, from, k) {
      SameOccurrence(str, pos, original, q, from, k - q);
    }
  }

  lemma {:induction false} EditedNext(str: string, pos: nat, repl: string, done: seq<string>, original: string,
      q: nat, found: nat, n: nat)
    requires Edited(str, pos, repl, done, original, q) && pos <= found && found + n <= |str|
    ensures var j := found - pos + q;
      && j + n <= |original|
      && Edited(str[..found] + repl + str[found + n..], found + |repl|, repl, done + [original[q..j]], original, j + n)
  {
    var j := found - pos + q;
    var next := str[..found] + repl + str[found + n..];
    TerminatedLast(repl, done, original[q..j]);
    assert str[pos..found] == str[pos..][..found - pos] == original[q..][..j - q] == original[q..j];
    assert str[found + n..] == str[pos..][found - pos + n..] == original[q..][j - q + n..] == original[j + n..];
    assert next[..found + |repl|] == str[..pos] + str[pos..found] + repl;
  }

  lemma {:induction false} EditedLast(str: string, pos: nat, repl: string, done: seq<string>, original: string, q: nat)
    requires Edited(str, pos, repl, done, original, q)
    ensures str == Joined(repl, done + [original[q..]])
  {
    JoinedLast(repl, done, original[q..]);
    assert str == str[..pos] + str[pos..];
  }

  /** The outcome of replacing: the pieces of the split, joined with the replacement. */
  ghost predicate IsReplaced(original: string, from: string, repl: string, str: string) {
    exists pieces :: SplitsInto(from, original, pieces) && str == Joined(repl, pieces)
  }

  /** What holds at the top of the loop: the pieces found in the original up to q, and the string edited up to pos. */
  ghost predicate Replacing(str: string, pos: nat, from: string, repl: string, done: seq<string>, original: string,
      q: nat)
  {
    Found(from, original, q, done) && Edited(str, pos, repl, done, original, q)
  }

  lemma {:induction false} ReplacingNext(str: string, pos: nat, from: string, repl: string, done: seq<string>,
      original: string, q: nat, found: nat)
    requires Replacing(str, pos, from, repl, done, original, q) && IsFirst(str, from, pos, Some(found))
    ensures var j := found - pos + q;
      && j + |from| <= |original|
      && Replacing(str[..found] + repl + str[found + |from|..], found + |repl|, from, repl,
                   done + [original[q..j]], original, j + |from|)
  {
    SameFirst(str, pos, original, q, from, Some(found));
    FoundNext(from, original, q, done, found - pos + q);
    EditedNext(str, pos, repl, done, original, q, found, |from|);
  }

  lemma {:induction false} ReplacingLast(str: string, pos: nat, from: string, repl: string, done: seq<string>,
      original: string, q: nat)
    requires Replacing(str, pos, from, repl, done, original, q) && IsFirst(str, from, pos, None)
    ensures IsReplaced(original, from, repl, str) && (from == repl ==> str == original)
  {
    SameFirst(str, pos, original, q, from, None);
    FoundLast(from, original, q, done);
    EditedLast(str, pos, repl, done, original, q);
  }

  /** Replacing in place is splitting at one string and joining with the other. */
  method ReplaceAll(original: string, from: string, repl: string) returns (str: string)
    ensures from == "" ==> str == original
    ensures from != "" ==> IsReplaced(original, from, repl, str)
    ensures from == repl ==> str == original
  {
    str := original;
    if from == "" {
      return;
    }
    ghost var pieces: seq<string> := [];
    var pos: nat := 0;
    ghost var q: nat := 0;
    while true
      invariant q <= |original| && Replacing(str, pos, from, repl, pieces, original, q)
      decreases |original| - q
    {
      var found := Find(str, from, pos);
      if found.None? {
        ReplacingLast(str, pos, from, repl, pieces, original, q);
        break;
      }
      ReplacingNext(str, pos, from, repl, pieces, original, q, found.value);
      ghost var j := found.value - pos + q;
      pos := found.value;
      str := str[..pos] + repl + str[pos + |from|..];
      pos := pos + |repl|;
      pieces := pieces + [original[q..j]];
      q := j + |from|;
    }
  }

  /** The three together: replacing is splitting and joining with something else, and joining again restores. */
  method ReplaceIsSplitAndJoin(s: string, from: string, repl: string)
    returns (replaced: string, joined: string, restored: string)
    requires from != ""
    ensures replaced == joined && restored == s
  {
    replaced := ReplaceAll(s, from, repl);
    var pieces := Split(from, s, false);
    joined := Join(repl, pieces.value);
    restored := Join(from, pieces.value);
    ghost var found :| SplitsInto(from, s, found) && replaced == Joined(repl, found);
    SplitsOnce(from, s, pieces.value, found);
  }

  lemma {:induction false} ExampleSplits()
    ensures SplitsInto(",", "a,,b", ["a", "", "b"])
  {
    var pieces := ["a", "", "b"];
    assert pieces[..2] == ["a", ""] && pieces[..2][..1] == ["a"];
    assert Joined(",", ["a"]) == "a";
    assert Joined(",", ["a", ""]) == "a" + "," + "" by { assert ["a", ""][..1] == ["a"]; }
    assert Joined(",", pieces) == "a," + "," + "b" == "a,,b";
    assert Leftmost(",", "a") && Leftmost(",", "");
    assert "b"[0..1][0] == 'b';
    assert !Occurs("b", ",", 0);
  }

  lemma {:induction false} ExamplePicks(result: seq<string>)
    requires Kept(true, ["a", "", "b"], result)
    ensures result == ["a", "b"]
  {
    var pieces, at: seq<nat> := ["a", "", "b"], [0, 2];
    assert at[0] == 0 && at[1] == 2;
    assert Listed(at, 0) && Listed(at, 2);
    assert Picks(pieces, ["a", "b"], at);
    var other: seq<nat> :| Picks(pieces, result, other);
    PicksOnce(pieces, result, ["a", "b"], other, at);
  }

  /** Splitting "a,,b" at commas gives "a", "" and "b"; ignoring empty pieces leaves "a" and "b". */
  method SplitExample() returns (all: Option<seq<string>>, some: Option<seq<string>>)
    ensures all == Some(["a", "", "b"]) && some == Some(["a", "b"])
  {
    all := Split(",", "a,,b", false);
    some := Split(",", "a,,b", true);
    ghost var pieces :| SplitsInto(",", "a,,b", pieces) && Kept(true, pieces, some.value);
    ExampleSplits();
    SplitsOnce(",", "a,,b", all.value, ["a", "", "b"]);
    SplitsOnce(",", "a,,b", pieces, ["a", "", "b"]);
    ExamplePicks(some.value);
  }
}
