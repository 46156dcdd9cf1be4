/** The pieces of JavaScript's own semantics that the diagram code leans on:
    optional values, the truthiness of an optional string, `Array.prototype.find`
    and `findIndex`, and `Array.prototype.splice` with its clamping of the start
    index and of the delete count. */
module JsSemantics {

  /** A value that may be `undefined` or `null` (None) or present (Some). */
  datatype Option<+T> = None | Some(value: T)

  /** A string in a condition: `undefined`, `null` and `''` are falsy, any
      other string is truthy. */
  predicate Truthy(s: Option<string>) {
    s.Some? && s.value != ""
  }

  /** `s.findIndex(p)`: the first index whose element satisfies `p`, or -1. */
  function FindIndex<T>(s: seq<T>, p: T -> bool): (r: int)
    ensures -1 <= r < |s|
    ensures 0 <= r ==> p(s[r])
    ensures forall j :: 0 <= j < |s| && (r < 0 || j < r) ==> !p(s[j])
  {
    if s == [] then -1
    else if p(s[0]) then 0
    else
      var r := FindIndex(s[1..], p);
      if r < 0 then -1 else r + 1
  }

  /** `s.find(p)`: the first element that satisfies `p`, or `undefined`. */
  function Find<T>(s: seq<T>, p: T -> bool): (r: Option<T>)
    ensures r.Some? ==> r.value in s && p(r.value)
    ensures r.None? <==> forall x :: x in s ==> !p(x)
    ensures r.Some? ==> exists i :: 0 <= i < |s| && s[i] == r.value && forall j :: 0 <= j < i ==> !p(s[j])
  {
    var i := FindIndex(s, p);
    if i < 0 then None else Some(s[i])
  }

  /** The index at which `splice` starts: a negative start counts back from
      the end and stops at 0, a start past the end stops at the end. */
  function SpliceStart(len: nat, start: int): (k: nat)
    ensures k <= len
    ensures 0 <= start <= len ==> k == start
    ensures len < start ==> k == len
    ensures start < 0 ==> k == if len + start < 0 then 0 else len + start
  {
    if start < 0 then (if len + start < 0 then 0 else len + start)
    else if start < len then start
    else len
  }

  /** What `splice` returns (`removed`) and what it leaves in the array (`result`). */
  datatype Spliced<T> = Spliced(removed: seq<T>, result: seq<T>)

  /** `s.splice(start, deleteCount, ...items)`. */
  function Splice<T>(s: seq<T>, start: int, deleteCount: int, items: seq<T>): (r: Spliced<T>)
    ensures var k := SpliceStart(|s|, start);
            && |r.removed| == (if deleteCount <= 0 then 0 else if deleteCount < |s| - k then deleteCount else |s| - k)
            && r.removed == s[k..k + |r.removed|]
            && r.result == s[..k] + items + s[k + |r.removed|..]
  {
    var k := SpliceStart(|s|, start);
    var n := if deleteCount <= 0 then 0 else if deleteCount < |s| - k then deleteCount else |s| - k;
    Spliced(s[k..k + n], s[..k] + items + s[k + n..])
  }

  /** `splice` loses nothing and invents nothing: what it removed and what it
      left together hold the old elements and the inserted items. */
  lemma SpliceKeepsElements<T>(s: seq<T>, start: int, deleteCount: int, items: seq<T>)
    ensures var r := Splice(s, start, deleteCount, items);
            multiset(r.removed) + multiset(r.result) == multiset(s) + multiset(items)
  {
    var r := Splice(s, start, deleteCount, items);
    var k := SpliceStart(|s|, start);
    var n := |r.removed|;
    assert s == s[..k] + s[k..k + n] + s[k + n..];
  }
}
