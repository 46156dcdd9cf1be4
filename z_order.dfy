/** Reordering of the node sequence by the z-order panel. A node's position in
    the sequence is its stacking order: index 0 is drawn first (bottom), the
    last index is drawn last (top). */
module ZOrder {
  import opened JsSemantics

  /** The strings the z-order panel emits: `'first'` (double arrow up), `'up'`,
      `'down'` and `'last'` (double arrow down). */
  datatype Direction = First | Up | Down | Last

  /** The index the node is reinserted at, before `splice` clamps it. The source
      tests for `'last'`, `'down'` and `'up'`; `'first'` takes the fall-through.
      The contract gives the index where the node lands once the second
      `splice` has clamped this one against the `n - 1` remaining nodes. */
  function TargetIndex(d: Direction, index: nat, n: nat): (t: int)
    requires index < n
    ensures d == Last ==> SpliceStart(n - 1, t) == 0
    ensures d == First ==> SpliceStart(n - 1, t) == n - 1
    ensures d == Up ==> SpliceStart(n - 1, t) == if index + 1 < n then index + 1 else n - 1
    ensures d == Down ==> SpliceStart(n - 1, t) == if 0 < index then index - 1 else if 2 <= n then n - 2 else 0
  {
    match d
    case Last => 0
    case Down => index - 1
    case Up => index + 1
    case First => n - 1
  }

  /** Takes `s[from]` out with `splice(from, 1)` and puts it back with
      `splice(to, 0, node)`. */
  function Move<T>(s: seq<T>, from: nat, to: int): (r: seq<T>)
    requires from < |s|
    ensures |r| == |s|
  {
    var taken := Splice(s, from, 1, []);
    Splice(taken.result, to, 0, [taken.removed[0]]).result
  }

  /** Moving a node reorders the sequence and does nothing else. */
  lemma {:induction false} MovePermutes<T>(s: seq<T>, from: nat, to: int)
    requires from < |s|
    ensures multiset(Move(s, from, to)) == multiset(s)
  {
    MoveShape(s, from, to);
    ReinsertPermutes(s, from, SpliceStart(|s| - 1, to));
  }

  /** Taking `s[from]` out and putting it back at index `k` of what is left
      keeps every element. */
  lemma {:induction false} ReinsertPermutes<T>(s: seq<T>, from: nat, k: nat)
    requires from < |s| && k < |s|
    ensures var rest := s[..from] + s[from + 1..];
            multiset(rest[..k] + [s[from]] + rest[k..]) == multiset(s)
  {
    var x, rest := s[from], s[..from] + s[from + 1..];
    calc {
      multiset(rest[..k] + [x] + rest[k..]);
      multiset(rest[..k]) + multiset{x} + multiset(rest[k..]);
      { assert rest[..k] + rest[k..] == rest; }
      multiset(rest) + multiset{x};
      multiset(s[..from]) + multiset{x} + multiset(s[from + 1..]);
      { assert s[..from] + [x] + s[from + 1..] == s; }
      multiset(s);
    }
  }

  /** The shape both splices leave: the node at the clamped target, the others
      in their old order around it. */
  lemma {:induction false} MoveShape<T>(s: seq<T>, from: nat, to: int)
    requires from < |s|
    ensures var k := SpliceStart(|s| - 1, to);
            var rest := s[..from] + s[from + 1..];
            Move(s, from, to) == rest[..k] + [s[from]] + rest[k..]
  {
    var taken := Splice(s, from, 1, []);
    assert taken.removed == [s[from]];
    assert taken.result == s[..from] + s[from + 1..];
  }

  /** `'last'` sends the node to the bottom of the stack, index 0. */
  lemma {:induction false} LastGoesToBottom<T>(s: seq<T>, i: nat)
    requires i < |s|
    ensures Move(s, i, TargetIndex(Last, i, |s|)) == [s[i]] + s[..i] + s[i + 1..]
  {
    MoveShape(s, i, 0);
  }

  /** `'first'` sends the node to the top of the stack, the last index. */
  lemma {:induction false} FirstGoesToTop<T>(s: seq<T>, i: nat)
    requires i < |s|
    ensures Move(s, i, TargetIndex(First, i, |s|)) == s[..i] + s[i + 1..] + [s[i]]
  {
    MoveShape(s, i, |s| - 1);
    var rest := s[..i] + s[i + 1..];
    assert rest[..|s| - 1] == rest && rest[|s| - 1..] == [];
  }

  /** `'up'` below the top swaps the node with its successor. */
  lemma {:induction false} UpSwapsWithNext<T>(s: seq<T>, i: nat)
    requires i + 1 < |s|
    ensures Move(s, i, TargetIndex(Up, i, |s|)) == s[i := s[i + 1]][i + 1 := s[i]]
  {
    MoveShape(s, i, i + 1);
    var rest := s[..i] + s[i + 1..];
    assert s[i + 1..] == [s[i + 1]] + s[i + 2..];
    assert rest == s[..i] + [s[i + 1]] + s[i + 2..];
    assert rest[..i + 1] == s[..i] + [s[i + 1]];
    assert rest[i + 1..] == s[i + 2..];
    var r := s[i := s[i + 1]][i + 1 := s[i]];
    assert r == s[..i] + [s[i + 1]] + [s[i]] + s[i + 2..];
  }

  /** `'up'` at the top leaves the order as it was: the start `n` is clamped to
      the end of the shortened array. */
  lemma {:induction false} UpAtTopKeepsOrder<T>(s: seq<T>, i: nat)
    requires i + 1 == |s|
    ensures Move(s, i, TargetIndex(Up, i, |s|)) == s
  {
    MoveShape(s, i, i + 1);
    assert s == s[..i] + [s[i]];
  }

  /** `'down'` above the bottom swaps the node with its predecessor. */
  lemma {:induction false} DownSwapsWithPrevious<T>(s: seq<T>, i: nat)
    requires 0 < i < |s|
    ensures Move(s, i, TargetIndex(Down, i, |s|)) == s[i := s[i - 1]][i - 1 := s[i]]
  {
    MoveShape(s, i, i - 1);
    var rest := s[..i] + s[i + 1..];
    assert rest[..i - 1] == s[..i - 1];
    assert rest[i - 1..] == [s[i - 1]] + s[i + 1..];
    var r := s[i := s[i - 1]][i - 1 := s[i]];
    assert r == s[..i - 1] + [s[i]] + [s[i - 1]] + s[i + 1..];
  }

  /** `'down'` at the bottom does not stay put: the start -1 counts back from
      the end of the shortened array, so the node lands at index n-2, just
      below the topmost node. */
  lemma {:induction false} DownAtBottomWrapsBelowTop<T>(s: seq<T>)
    requires 2 <= |s|
    ensures Move(s, 0, TargetIndex(Down, 0, |s|)) == s[1..|s| - 1] + [s[0]] + [s[|s| - 1]]
  {
    MoveShape(s, 0, -1);
    var k := SpliceStart(|s| - 1, -1);
    assert k == |s| - 2;
    var rest := s[..0] + s[1..];
    assert rest[..k] == s[1..|s| - 1];
    assert rest[k..] == [s[|s| - 1]];
  }

  /** `'down'` on the only node leaves it where it is. */
  lemma {:induction false} DownOnSingleNode<T>(s: seq<T>)
    requires |s| == 1
    ensures Move(s, 0, TargetIndex(Down, 0, |s|)) == [s[0]]
  {
    MoveShape(s, 0, -1);
  }
}
