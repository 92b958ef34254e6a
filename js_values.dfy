/** JavaScript values as the extraction code sees them: a selector outcome is either
    a string or `undefined`/`null`, and the `||` operator picks by truthiness. */
module JsValues {

  /** `None` stands for JavaScript's `undefined` or `null`. */
  datatype Option<+T> = None | Some(value: T)

  /** JavaScript truthiness of a string-or-nothing: `undefined`, `null` and `""` are falsy. */
  predicate Truthy(v: Option<string>) {
    v.Some? && v.value != ""
  }

  /** `i` is the position of the first truthy operand of `cands`. */
  predicate FirstTruthyAt(cands: seq<Option<string>>, i: int) {
    0 <= i < |cands| && Truthy(cands[i]) && forall j :: 0 <= j < i ==> !Truthy(cands[j])
  }

  /** `cands[0] || cands[1] || ... || cands[n-1]`: the first truthy operand, or the last
      operand when none is truthy (JavaScript returns the operand itself, not a boolean). */
  function OrChain(cands: seq<Option<string>>): (r: Option<string>)
    requires |cands| > 0
    ensures Truthy(r) <==> exists i :: 0 <= i < |cands| && Truthy(cands[i])
    ensures forall i :: FirstTruthyAt(cands, i) ==> r == cands[i]
    ensures Truthy(r) ==> exists i :: FirstTruthyAt(cands, i)
    ensures !Truthy(r) ==> r == cands[|cands| - 1]
  {
    if |cands| == 1 || Truthy(cands[0]) then
      assert Truthy(cands[0]) ==> FirstTruthyAt(cands, 0);
      cands[0]
    else
      var r := OrChain(cands[1..]);
      assert forall i :: 1 <= i < |cands| ==> cands[i] == cands[1..][i - 1];
      assert forall i :: FirstTruthyAt(cands, i) ==> FirstTruthyAt(cands[1..], i - 1);
      if Truthy(r) then
        var k :| FirstTruthyAt(cands[1..], k);
        assert FirstTruthyAt(cands, k + 1);
        r
      else r
  }

  /** `x || null`: the value when truthy, otherwise `null`. */
  function OrNull(v: Option<string>): (r: Option<string>)
    ensures r == None || Truthy(r)
    ensures Truthy(v) ==> r == v
    ensures !Truthy(v) ==> r == None
  {
    if Truthy(v) then v else None
  }
}
