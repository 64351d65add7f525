/**
 The edit distance meter of flashlight/fl/meter/EditDistanceMeter.h.

 An edit script turns the target into the output. The one-column dynamic program returns the
 deletions, insertions and substitutions of one definite script: among the scripts with the
 fewest errors, the first one when scripts are compared from their last edit backwards and a
 deletion precedes an insertion, which precedes keeping or substituting.
 */
module EditDistance {

  // ---------------------------------------------------------------- edit scripts

  datatype Edit = Delete | Insert | Keep | Substitute

  /** The edits in order; the last one is outermost. */
  datatype Script = Empty | Then(before: Script, last: Edit)

  datatype ErrorState = ErrorState(ndel: nat, nins: nat, nsub: nat) {
    function Sum(): nat {
      ndel + nins + nsub
    }
  }

  /** The script turns the first x elements of the target into the first y elements of the output. */
  ghost predicate Turns<T>(script: Script, target: seq<T>, output: seq<T>, x: nat, y: nat)
    requires x <= |target| && y <= |output|
  {
    match script
    case Empty => x == 0 && y == 0
    case Then(before, Delete) => x > 0 && Turns(before, target, output, x - 1, y)
    case Then(before, Insert) => y > 0 && Turns(before, target, output, x, y - 1)
    case Then(before, Keep) =>
      x > 0 && y > 0 && target[x - 1] == output[y - 1] && Turns(before, target, output, x - 1, y - 1)
    case Then(before, Substitute) =>
      x > 0 && y > 0 && target[x - 1] != output[y - 1] && Turns(before, target, output, x - 1, y - 1)
  }

  ghost function Occurrences(edit: Edit, script: Script): nat {
    match script
    case Empty => 0
    case Then(before, last) => Occurrences(edit, before) + if last == edit then 1 else 0
  }

  /** How often each kind of error occurs in a script. */
  ghost function Errors(script: Script): ErrorState {
    ErrorState(Occurrences(Delete, script), Occurrences(Insert, script), Occurrences(Substitute, script))
  }

  ghost function Price(edit: Edit): nat {
    if edit == Keep then 0 else 1
  }

  /** The number of errors in a script. */
  ghost function Cost(script: Script): nat {
    match script
    case Empty => 0
    case Then(before, last) => Cost(before) + Price(last)
  }

  lemma {:induction false} CostOfLast(before: Script, last: Edit)
    requires Cost(before) == Occurrences(Delete, before) + Occurrences(Insert, before) + Occurrences(Substitute, before)
    ensures var script := Then(before, last);
      Cost(script) == Occurrences(Delete, script) + Occurrences(Insert, script) + Occurrences(Substitute, script)
  {
  }

  lemma {:induction false} CostIsOccurrences(script: Script)
    ensures Cost(script) == Occurrences(Delete, script) + Occurrences(Insert, script) + Occurrences(Substitute, script)
  {
    match script
    case Empty =>
    case Then(before, last) =>
      CostIsOccurrences(before);
      CostOfLast(before, last);
  }

  lemma {:induction false} CostIsSum(script: Script)
    ensures Cost(script) == Errors(script).Sum()
  {
    CostIsOccurrences(script);
  }

  lemma {:induction false} CheaperSum(a: Script, b: Script)
    requires Cost(a) <= Cost(b)
    ensures Errors(a).Sum() <= Errors(b).Sum()
  {
    CostIsSum(a);
    CostIsSum(b);
  }

  /** Where an edit ranks when two scripts have equally few errors. */
  ghost function Rank(edit: Edit): nat {
    match edit
    case Delete => 0
    case Insert => 1
    case Keep => 2
    case Substitute => 2
  }

  /** Script a comes no later than b, comparing from the last edit backwards. */
  ghost predicate NoLater(a: Script, b: Script) {
    match a
    case Empty => b == Empty
    case Then(before, last) =>
      b != Empty && (Rank(last) < Rank(b.last) || (Rank(last) == Rank(b.last) && NoLater(before, b.before)))
  }

  /** Fewer errors, or equally many and no later. */
  ghost predicate Beats(a: Script, b: Script) {
    Cost(a) < Cost(b) || (Cost(a) == Cost(b) && NoLater(a, b))
  }

  /** The script the meter reports: fewest errors, and the first of those. */
  ghost predicate Reported<T>(script: Script, target: seq<T>, output: seq<T>, x: nat, y: nat)
    requires x <= |target| && y <= |output|
  {
    && Turns(script, target, output, x, y)
    && forall other {:trigger Turns(other, target, output, x, y)} | Turns(other, target, output, x, y) ::
      Beats(script, other)
  }

  /** Lengths balance: what is inserted beyond what is deleted is the difference in length. */
  lemma {:induction false} LengthsBalance<T>(script: Script, target: seq<T>, output: seq<T>, x: nat, y: nat)
    requires x <= |target| && y <= |output|
    requires Turns(script, target, output, x, y)
    ensures Errors(script).nins - Errors(script).ndel == y - x
  {
    match script
    case Empty =>
    case Then(before, Delete) => LengthsBalance(before, target, output, x - 1, y);
    case Then(before, Insert) => LengthsBalance(before, target, output, x, y - 1);
    case Then(before, _) => LengthsBalance(before, target, output, x - 1, y - 1);
  }

  /** Two scripts of the same strings that come no later than each other are one. */
  lemma {:induction false} OrderIsStrict<T>(a: Script, b: Script, target: seq<T>, output: seq<T>, x: nat, y: nat)
    requires x <= |target| && y <= |output|
    requires Turns(a, target, output, x, y) && Turns(b, target, output, x, y)
    requires NoLater(a, b) && NoLater(b, a)
    ensures a == b
  {
    match a
    case Empty =>
    case Then(before, Delete) => OrderIsStrict(before, b.before, target, output, x - 1, y);
    case Then(before, Insert) => OrderIsStrict(before, b.before, target, output, x, y - 1);
    case Then(before, _) => OrderIsStrict(before, b.before, target, output, x - 1, y - 1);
  }

  /** There is at most one reported script, so its counts are determined. */
  lemma {:induction false} ReportedIsUnique<T>(a: Script, b: Script, target: seq<T>, output: seq<T>)
    requires Reported(a, target, output, |target|, |output|)
    requires Reported(b, target, output, |target|, |output|)
    ensures a == b
  {
    OrderIsStrict(a, b, target, output, |target|, |output|);
  }

  // ---------------------------------------------------------------- the recurrence

  /** These are the error counts of the reported script. */
  ghost predicate Tells<T>(errors: ErrorState, target: seq<T>, output: seq<T>, x: nat, y: nat)
    requires x <= |target| && y <= |output|
  {
    exists script :: Reported(script, target, output, x, y) && errors == Errors(script)
  }

  /** No script that turns the target into the output has fewer errors. */
  lemma {:induction false} TellsFewest<T>(errors: ErrorState, target: seq<T>, output: seq<T>, other: Script)
    requires Tells(errors, target, output, |target|, |output|)
    requires Turns(other, target, output, |target|, |output|)
    ensures errors.Sum() <= Errors(other).Sum()
  {
    var script :| Reported(script, target, output, |target|, |output|) && errors == Errors(script);
    assert Cost(script) <= Cost(other) by { assert Beats(script, other); }
    CheaperSum(script, other);
  }

  /** The reported counts are a function of the two sequences. */
  lemma {:induction false} TellsOne<T>(e: ErrorState, f: ErrorState, target: seq<T>, output: seq<T>)
    requires Tells(e, target, output, |target|, |output|) && Tells(f, target, output, |target|, |output|)
    ensures e == f
  {
    var a :| Reported(a, target, output, |target|, |output|) && e == Errors(a);
    var b :| Reported(b, target, output, |target|, |output|) && f == Errors(b);
    ReportedIsUnique(a, b, target, output);
  }

  ghost function Diagonal<T>(target: seq<T>, output: seq<T>, x: nat, y: nat): Edit
    requires 0 < x <= |target| && 0 < y <= |output|
  {
    if target[x - 1] == output[y - 1] then Keep else Substitute
  }

  /** The cheapest of the three possible ends; among equally cheap ones the first. */
  ghost function End(deletion: Script, insertion: Script, diagonal: Script, last: Edit): Script {
    EndBy(Cost(deletion), Cost(insertion), Cost(diagonal), deletion, insertion, diagonal, last)
  }

  ghost function EndBy(del: nat, ins: nat, sub: nat, deletion: Script, insertion: Script, diagonal: Script,
      last: Edit): Script
  {
    if del + 1 <= ins + 1 && del + 1 <= sub + Price(last) then Then(deletion, Delete)
    else if ins + 1 <= sub + Price(last) then Then(insertion, Insert)
    else Then(diagonal, last)
  }

  /** The counts after one more edit. */
  ghost function Counting(errors: ErrorState, edit: Edit): ErrorState {
    ErrorState(errors.ndel + (if edit == Delete then 1 else 0),
               errors.nins + (if edit == Insert then 1 else 0),
               errors.nsub + (if edit == Substitute then 1 else 0))
  }

  lemma {:induction false} ErrorsOfLast(before: Script, last: Edit)
    ensures Errors(Then(before, last)) == Counting(Errors(before), last)
  {
  }

  lemma {:induction false} NothingToDo<T>(target: seq<T>, output: seq<T>)
    ensures Reported(Empty, target, output, 0, 0)
  {
  }

  lemma {:induction false} OnlyInsert<T>(target: seq<T>, output: seq<T>, y: nat, insertion: Script)
    requires 0 < y <= |output| && Reported(insertion, target, output, 0, y - 1)
    ensures Reported(Then(insertion, Insert), target, output, 0, y)
  {
  }

  lemma {:induction false} OnlyDelete<T>(target: seq<T>, output: seq<T>, x: nat, deletion: Script)
    requires 0 < x <= |target| && Reported(deletion, target, output, x - 1, 0)
    ensures Reported(Then(deletion, Delete), target, output, x, 0)
  {
  }

  /** This end beats whatever else is put at the end of scripts that are beaten themselves. */
  lemma {:induction false} EndBeats(deletion: Script, insertion: Script, diagonal: Script, last: Edit,
      before: Script, edit: Edit)
    requires last == Keep || last == Substitute
    requires
      || (edit == Delete && Beats(deletion, before))
      || (edit == Insert && Beats(insertion, before))
      || (edit == last && Beats(diagonal, before))
    ensures Beats(End(deletion, insertion, diagonal, last), Then(before, edit))
  {
  }

  /** The recurrence: the reported script ends in this way. */
  lemma {:induction false} EndIsReported<T>(target: seq<T>, output: seq<T>, x: nat, y: nat,
      deletion: Script, insertion: Script, diagonal: Script)
    requires 0 < x <= |target| && 0 < y <= |output|
    requires Reported(deletion, target, output, x - 1, y)
    requires Reported(insertion, target, output, x, y - 1)
    requires Reported(diagonal, target, output, x - 1, y - 1)
    ensures Reported(End(deletion, insertion, diagonal, Diagonal(target, output, x, y)), target, output, x, y)
  {
    var last := Diagonal(target, output, x, y);
    var script := End(deletion, insertion, diagonal, last);
    forall other | Turns(other, target, output, x, y)
      ensures Beats(script, other)
    {
      match other.last
      case Delete => assert Turns(other.before, target, output, x - 1, y);
      case Insert => assert Turns(other.before, target, output, x, y - 1);
      case _ => assert Turns(other.before, target, output, x - 1, y - 1);
      EndBeats(deletion, insertion, diagonal, last, other.before, other.last);
    }
  }

  // ---------------------------------------------------------------- what the counts say

  /** A script cannot have more errors against an element than there are elements. */
  lemma {:induction false} ErrorsFit<T>(script: Script, target: seq<T>, output: seq<T>, x: nat, y: nat)
    requires x <= |target| && y <= |output| && Turns(script, target, output, x, y)
    ensures Errors(script).ndel + Errors(script).nsub <= x
    ensures Errors(script).nins + Errors(script).nsub <= y
  {
    match script
    case Empty =>
    case Then(before, Delete) => ErrorsFit(before, target, output, x - 1, y);
    case Then(before, Insert) => ErrorsFit(before, target, output, x, y - 1);
    case Then(before, _) => ErrorsFit(before, target, output, x - 1, y - 1);
  }

  /** Without errors the two are the same. */
  lemma {:induction false} NoErrors<T>(script: Script, target: seq<T>, output: seq<T>, x: nat, y: nat)
    requires x <= |target| && y <= |output| && Turns(script, target, output, x, y) && Cost(script) == 0
    ensures target[..x] == output[..y]
  {
    if script.Then? {
      NoErrors(script.before, target, output, x - 1, y - 1);
      assert target[..x] == target[..x - 1] + [target[x - 1]] && output[..y] == output[..y - 1] + [output[y - 1]];
    }
  }

  /** The script that goes through both element by element, and then inserts or deletes the rest. */
  ghost function Straight<T>(target: seq<T>, output: seq<T>, x: nat, y: nat): Script
    requires x <= |target| && y <= |output|
    decreases x + y
  {
    if x > y then Then(Straight(target, output, x - 1, y), Delete)
    else if y > x then Then(Straight(target, output, x, y - 1), Insert)
    else if x == 0 then Empty
    else Then(Straight(target, output, x - 1, y - 1), Diagonal(target, output, x, y))
  }

  lemma {:induction false} StraightTurns<T>(target: seq<T>, output: seq<T>, x: nat, y: nat)
    requires x <= |target| && y <= |output|
    ensures Turns(Straight(target, output, x, y), target, output, x, y)
    ensures Cost(Straight(target, output, x, y)) <= if x > y then x else y
    ensures target[..x] == output[..y] ==> Cost(Straight(target, output, x, y)) == 0
    decreases x + y
  {
    if x > y {
      StraightTurns(target, output, x - 1, y);
    } else if y > x {
      StraightTurns(target, output, x, y - 1);
    } else if x > 0 {
      StraightTurns(target, output, x - 1, y - 1);
      if target[..x] == output[..y] {
        assert target[..x][x - 1] == output[..y][y - 1];
        assert target[..x - 1] == target[..x][..x - 1] == output[..y][..y - 1] == output[..y - 1];
      }
    }
  }

  lemma {:induction false} ReportedCost<T>(script: Script, target: seq<T>, output: seq<T>)
    requires Reported(script, target, output, |target|, |output|)
    ensures Cost(script) == 0 <==> target == output
    ensures Cost(script) <= if |target| > |output| then |target| else |output|
  {
    var x, y := |target|, |output|;
    StraightTurns(target, output, x, y);
    assert Beats(script, Straight(target, output, x, y));
    assert target[..x] == target && output[..y] == output;
    if Cost(script) == 0 {
      NoErrors(script, target, output, x, y);
    }
  }

  /** No errors exactly for equal sequences, no more than the longer one has elements, and at most one an element. */
  ghost predicate Bounds<T>(errors: ErrorState, target: seq<T>, output: seq<T>) {
    && (errors.Sum() == 0 <==> target == output)
    && errors.Sum() <= (if |target| > |output| then |target| else |output|)
    && errors.ndel + errors.nsub <= |target| && errors.nins + errors.nsub <= |output|
  }

  lemma {:induction false} BoundsFrom<T>(errors: ErrorState, cost: nat, target: seq<T>, output: seq<T>)
    requires cost == errors.Sum() && (cost == 0 <==> target == output)
    requires cost <= if |target| > |output| then |target| else |output|
    requires errors.ndel + errors.nsub <= |target| && errors.nins + errors.nsub <= |output|
    ensures Bounds(errors, target, output)
  {
  }

  lemma {:induction false} TellsScript<T>(errors: ErrorState, target: seq<T>, output: seq<T>) returns (script: Script)
    requires Tells(errors, target, output, |target|, |output|)
    ensures Reported(script, target, output, |target|, |output|) && Cost(script) == errors.Sum()
    ensures errors.ndel + errors.nsub <= |target| && errors.nins + errors.nsub <= |output|
  {
    script :| Reported(script, target, output, |target|, |output|) && errors == Errors(script);
    CostIsSum(script);
    ErrorsFit(script, target, output, |target|, |output|);
  }

  lemma {:induction false} TellsBounds<T>(errors: ErrorState, target: seq<T>, output: seq<T>)
    requires Tells(errors, target, output, |target|, |output|)
    ensures Bounds(errors, target, output)
  {
    var script := TellsScript(errors, target, output);
    ReportedCost(script, target, output);
    BoundsFrom(errors, Cost(script), target, output);
  }

  // ---------------------------------------------------------------- the dynamic program

  /** std::min_element over three values: the index of the first minimum. */
  method FirstMinimum(possibilities: seq<nat>) returns (k: nat)
    requires possibilities != []
    ensures k < |possibilities|
    ensures forall i | 0 <= i < |possibilities| :: possibilities[k] <= possibilities[i]
    ensures forall i | 0 <= i < k :: possibilities[k] < possibilities[i]
  {
    k := 0;
    for i := 1 to |possibilities|
      invariant k < i
      invariant forall j | 0 <= j < i :: possibilities[k] <= possibilities[j]
      invariant forall j | 0 <= j < k :: possibilities[k] < possibilities[j]
    {
      if possibilities[i] < possibilities[k] {
        k := i;
      }
    }
  }

  /** The cell a step picks among deletion, insertion and diagonal. */
  ghost predicate Picked(cell: ErrorState, left: ErrorState, above: ErrorState, diagonal: ErrorState, same: bool) {
    var del, ins, sub := left.Sum() + 1, above.Sum() + 1, diagonal.Sum() + (if same then 0 else 1);
    if del <= ins && del <= sub then cell == ErrorState(left.ndel + 1, left.nins, left.nsub)
    else if ins <= sub then cell == ErrorState(above.ndel, above.nins + 1, above.nsub)
    else cell == ErrorState(diagonal.ndel, diagonal.nins, diagonal.nsub + (if same then 0 else 1))
  }

  /** The end that the numbers of errors select, and the counts it extends. */
  ghost predicate Extends(end: Script, cell: ErrorState, left: ErrorState, above: ErrorState, diagonal: ErrorState,
      d: Script, i: Script, g: Script)
  {
    && end.Then?
    && ((end.before == d && cell == Counting(left, end.last))
        || (end.before == i && cell == Counting(above, end.last))
        || (end.before == g && cell == Counting(diagonal, end.last)))
  }

  lemma {:induction false} PickedExtends(cell: ErrorState, left: ErrorState, above: ErrorState, diagonal: ErrorState,
      d: Script, i: Script, g: Script, last: Edit)
    requires last == Keep || last == Substitute
    requires Picked(cell, left, above, diagonal, last == Keep)
    ensures Extends(EndBy(left.Sum(), above.Sum(), diagonal.Sum(), d, i, g, last), cell, left, above, diagonal, d, i, g)
  {
  }

  lemma {:induction false} SameEnd(d: Script, i: Script, g: Script, last: Edit)
    ensures End(d, i, g, last) == EndBy(Errors(d).Sum(), Errors(i).Sum(), Errors(g).Sum(), d, i, g, last)
  {
    CostIsSum(d);
    CostIsSum(i);
    CostIsSum(g);
  }

  lemma {:induction false} ExtendsErrors(end: Script, cell: ErrorState, d: Script, i: Script, g: Script)
    requires Extends(end, cell, Errors(d), Errors(i), Errors(g), d, i, g)
    ensures cell == Errors(end)
  {
    ErrorsOfLast(end.before, end.last);
  }

  lemma {:induction false} PickedTells<T>(target: seq<T>, output: seq<T>, x: nat, y: nat,
      cell: ErrorState, left: ErrorState, above: ErrorState, diagonal: ErrorState)
    requires 0 < x <= |target| && 0 < y <= |output|
    requires Tells(left, target, output, x - 1, y)
    requires Tells(above, target, output, x, y - 1)
    requires Tells(diagonal, target, output, x - 1, y - 1)
    requires Picked(cell, left, above, diagonal, output[y - 1] == target[x - 1])
    ensures Tells(cell, target, output, x, y)
  {
    var d :| Reported(d, target, output, x - 1, y) && left == Errors(d);
    var i :| Reported(i, target, output, x, y - 1) && above == Errors(i);
    var g :| Reported(g, target, output, x - 1, y - 1) && diagonal == Errors(g);
    var last := Diagonal(target, output, x, y);
    PickedExtends(cell, left, above, diagonal, d, i, g, last);
    SameEnd(d, i, g, last);
    ExtendsErrors(End(d, i, g, last), cell, d, i, g);
    EndIsReported(target, output, x, y, d, i, g);
  }

  /** One inner step: the new cell from the old cell, the cell before it and the old diagonal. */
  method Cell(left: ErrorState, above: ErrorState, lastDiagonal: ErrorState, same: bool) returns (cell: ErrorState)
    ensures Picked(cell, left, above, lastDiagonal, same)
  {
    var possibilities := [left.Sum() + 1, above.Sum() + 1, lastDiagonal.Sum() + (if same then 0 else 1)];
    var k := FirstMinimum(possibilities);
    assert possibilities[k] <= possibilities[0] && possibilities[k] <= possibilities[1];
    assert possibilities[k] <= possibilities[2];
    assert k == 0 || possibilities[k] < possibilities[0];
    assert k <= 1 || possibilities[k] < possibilities[1];
    if k == 0 {
      cell := left.(ndel := left.ndel + 1);
    } else if k == 1 {
      cell := above.(nins := above.nins + 1);
    } else {
      cell := lastDiagonal;
      if !same {
        cell := cell.(nsub := cell.nsub + 1);
      }
    }
  }

  /** The column's first cell: an empty output costs x deletions. */
  lemma {:induction false} FirstCell<T>(target: seq<T>, output: seq<T>, x: nat)
    requires x <= |target|
    ensures Tells(ErrorState(x, 0, 0), target, output, x, 0)
  {
    if x == 0 {
      NothingToDo(target, output);
    } else {
      FirstCell(target, output, x - 1);
      var script :| Reported(script, target, output, x - 1, 0) && ErrorState(x - 1, 0, 0) == Errors(script);
      OnlyDelete(target, output, x, script);
    }
  }

  /** The initial column: an empty target costs y insertions. */
  lemma {:induction false} FirstColumn<T>(target: seq<T>, output: seq<T>, y: nat)
    requires y <= |output|
    ensures Tells(ErrorState(0, y, 0), target, output, 0, y)
  {
    if y == 0 {
      NothingToDo(target, output);
    } else {
      FirstColumn(target, output, y - 1);
      var script :| Reported(script, target, output, 0, y - 1) && ErrorState(0, y - 1, 0) == Errors(script);
      OnlyInsert(target, output, y, script);
    }
  }

  /** One outer step: the column moves from x - 1 to x target elements. */
  method Advance<T(==)>(target: seq<T>, output: seq<T>, x: nat, column: array<ErrorState>)
    requires 0 < x <= |target| && column.Length == |output| + 1
    requires column[0] == ErrorState(x - 1, 0, 0)
    requires forall y | 0 <= y <= |output| :: Tells(column[y], target, output, x - 1, y)
    modifies column
    ensures column[0] == ErrorState(x, 0, 0)
    ensures forall y | 0 <= y <= |output| :: Tells(column[y], target, output, x, y)
  {
    var lastDiagonal := column[0];
    column[0] := column[0].(ndel := x);
    FirstCell(target, output, x);
    for y := 1 to |output| + 1
      invariant Tells(lastDiagonal, target, output, x - 1, y - 1)
      invariant column[0] == ErrorState(x, 0, 0)
      invariant forall i | 0 <= i < y :: Tells(column[i], target, output, x, i)
      invariant forall i | y <= i <= |output| :: Tells(column[i], target, output, x - 1, i)
    {
      var oldDiagonal := column[y];
      var cell := Cell(column[y], column[y - 1], lastDiagonal, output[y - 1] == target[x - 1]);
      PickedTells(target, output, x, y, cell, column[y], column[y - 1], lastDiagonal);
      column[y] := cell;
      lastDiagonal := oldDiagonal;
    }
  }

  /** The one-column dynamic program: the counts of the reported script. */
  method LevenshteinDistance<T(==)>(output: seq<T>, target: seq<T>) returns (errors: ErrorState)
    ensures Tells(errors, target, output, |target|, |output|)
    ensures errors.nins - errors.ndel == |output| - |target|
    ensures Bounds(errors, target, output)
  {
    var column := new ErrorState[|output| + 1](_ => ErrorState(0, 0, 0));
    for i := 0 to |output| + 1
      invariant forall y | 0 <= y < i :: column[y] == ErrorState(0, y, 0)
      invariant forall y | i <= y <= |output| :: column[y] == ErrorState(0, 0, 0)
    {
      column[i] := column[i].(nins := i);
    }
    forall y | 0 <= y <= |output| ensures Tells(column[y], target, output, 0, y) {
      FirstColumn(target, output, y);
    }
    for x := 1 to |target| + 1
      invariant column[0] == ErrorState(x - 1, 0, 0)
      invariant forall y | 0 <= y <= |output| :: Tells(column[y], target, output, x - 1, y)
    {
      Advance(target, output, x, column);
    }
    errors := column[|output|];
    ghost var script :| Reported(script, target, output, |target|, |output|) && errors == Errors(script);
    LengthsBalance(script, target, output, |target|, |output|);
    TellsBounds(errors, target, output);
  }

  // ---------------------------------------------------------------- ties

  /** What a script does to prefixes does not depend on what follows them. */
  lemma {:induction false} TurnsPrefix<T>(script: Script, t: seq<T>, o: seq<T>, t': seq<T>, o': seq<T>, x: nat, y: nat)
    requires x <= |t| && x <= |t'| && y <= |o| && y <= |o'|
    requires (forall i | 0 <= i < x :: t[i] == t'[i]) && (forall i | 0 <= i < y :: o[i] == o'[i])
    ensures Turns(script, t, o, x, y) <==> Turns(script, t', o', x, y)
  {
    if script.Then? {
      var before, last := script.before, script.last;
      if last == Delete && x > 0 {
        TurnsPrefix(before, t, o, t', o', x - 1, y);
      } else if last == Insert && y > 0 {
        TurnsPrefix(before, t, o, t', o', x, y - 1);
      } else if last != Delete && last != Insert && x > 0 && y > 0 {
        TurnsPrefix(before, t, o, t', o', x - 1, y - 1);
      }
    }
  }

  lemma {:induction false} TellsPrefix<T>(e: ErrorState, t: seq<T>, o: seq<T>, t': seq<T>, o': seq<T>, x: nat, y: nat)
    requires x <= |t| && x <= |t'| && y <= |o| && y <= |o'| && Tells(e, t, o, x, y)
    requires (forall i | 0 <= i < x :: t[i] == t'[i]) && (forall i | 0 <= i < y :: o[i] == o'[i])
    ensures Tells(e, t', o', x, y)
  {
    var script :| Reported(script, t, o, x, y) && e == Errors(script);
    forall other ensures Turns(other, t, o, x, y) <==> Turns(other, t', o', x, y) {
      TurnsPrefix(other, t, o, t', o', x, y);
    }
    assert Reported(script, t', o', x, y);
  }

  lemma {:induction false} LastStep<T>(t: seq<T>, o: seq<T>, a: T, b: T,
      all: ErrorState, left: ErrorState, above: ErrorState, diagonal: ErrorState)
    requires Tells(all, t + [a], o + [b], |t| + 1, |o| + 1)
    requires Tells(left, t, o + [b], |t|, |o| + 1) && Tells(above, t + [a], o, |t| + 1, |o|)
    requires Tells(diagonal, t, o, |t|, |o|)
    ensures Picked(all, left, above, diagonal, b == a)
  {
    var t', o' := t + [a], o + [b];
    TellsPrefix(left, t, o', t', o', |t|, |o| + 1);
    TellsPrefix(above, t', o, t', o', |t| + 1, |o|);
    TellsPrefix(diagonal, t, o, t', o', |t|, |o|);
    var cell := Pick(left, above, diagonal, b == a);
    PickedTells(t', o', |t| + 1, |o| + 1, cell, left, above, diagonal);
    TellsOne(all, cell, t', o');
  }

  ghost function Pick(left: ErrorState, above: ErrorState, diagonal: ErrorState, same: bool): (cell: ErrorState)
    ensures Picked(cell, left, above, diagonal, same)
  {
    var del, ins, sub := left.Sum() + 1, above.Sum() + 1, diagonal.Sum() + (if same then 0 else 1);
    if del <= ins && del <= sub then ErrorState(left.ndel + 1, left.nins, left.nsub)
    else if ins <= sub then ErrorState(above.ndel, above.nins + 1, above.nsub)
    else ErrorState(diagonal.ndel, diagonal.nins, diagonal.nsub + (if same then 0 else 1))
  }

  /**
   How the counts of two sequences follow from those without their last elements: a deletion where it is as
   cheap as anything else, otherwise an insertion where that is as cheap, otherwise both last elements.
   */
  method Ties<T(==)>(t: seq<T>, o: seq<T>, a: T, b: T)
    returns (all: ErrorState, left: ErrorState, above: ErrorState, diagonal: ErrorState)
    ensures Tells(all, t + [a], o + [b], |t| + 1, |o| + 1)
    ensures Tells(left, t, o + [b], |t|, |o| + 1) && Tells(above, t + [a], o, |t| + 1, |o|)
    ensures Tells(diagonal, t, o, |t|, |o|)
    ensures var del, ins := left.ndel + left.nins + left.nsub + 1, above.ndel + above.nins + above.nsub + 1;
      var sub := diagonal.ndel + diagonal.nins + diagonal.nsub + (if a == b then 0 else 1);
      && (del <= ins && del <= sub ==>
            all.ndel == left.ndel + 1 && all.nins == left.nins && all.nsub == left.nsub)
      && (ins < del && ins <= sub ==>
            all.ndel == above.ndel && all.nins == above.nins + 1 && all.nsub == above.nsub)
      && (sub < del && sub < ins ==>
            && all.ndel == diagonal.ndel && all.nins == diagonal.nins
            && all.nsub == diagonal.nsub + (if a == b then 0 else 1))
  {
    all := LevenshteinDistance(o + [b], t + [a]);
    left := LevenshteinDistance(o + [b], t);
    above := LevenshteinDistance(o, t + [a]);
    diagonal := LevenshteinDistance(o, t);
    LastStep(t, o, a, b, all, left, above, diagonal);
  }

  // ---------------------------------------------------------------- the meter

  class Meter<T(==)> {
    var n: nat
    var ndel: nat
    var nins: nat
    var nsub: nat

    constructor ()
      ensures n == ndel == nins == nsub == 0
    {
      n, ndel, nins, nsub := 0, 0, 0, 0;
    }

    method Add(output: seq<T>, target: seq<T>)
      modifies this
      ensures n == old(n) + |target|
      ensures nins - ndel == old(nins - ndel) + |output| - |target|
      ensures exists e: ErrorState ::
        && Tells(e, target, output, |target|, |output|) && Bounds(e, target, output)
        && ndel == old(ndel) + e.ndel && nins == old(nins) + e.nins && nsub == old(nsub) + e.nsub
    {
      var e := LevenshteinDistance(output, target);
      n, ndel, nins, nsub := n + |target|, ndel + e.ndel, nins + e.nins, nsub + e.nsub;
    }
  }
}
