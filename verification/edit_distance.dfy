/** Edit distance (content.js `levenshtein`): the recurrence that defines it, the edit scripts
    that justify it, and the single-row dynamic program the source runs. */
module EditDistance {
  import opened Wrappers

  /** `Math.min(x, y, z)`. */
  function Min3(x: nat, y: nat, z: nat): (m: nat)
    ensures m <= x && m <= y && m <= z
    ensures m == x || m == y || m == z
  {
    if x <= y && x <= z then x else if y <= z then y else z
  }

  function Init(s: string): string
    requires |s| > 0
  {
    s[..|s| - 1]
  }

  function Last(s: string): char
    requires |s| > 0
  {
    s[|s| - 1]
  }

  /** Wagner-Fischer recurrence over prefixes, with unit cost for insertion, deletion and
      substitution. `Distance(a[..i], b[..j])` is what the source's row holds at `tmp[j]`
      after row `i`. */
  function Distance(a: string, b: string): nat
    decreases |a| + |b|
  {
    if |a| == 0 then |b|
    else if |b| == 0 then |a|
    else Min3(Distance(Init(a), Init(b)) + (if Last(a) == Last(b) then 0 else 1),
              Distance(Init(a), b) + 1,
              Distance(a, Init(b)) + 1)
  }

  /** One step of an edit script. */
  datatype EditOp = Keep | Substitute(c: char) | Insert(c: char) | Delete

  function OpCost(op: EditOp): nat
  {
    if op.Keep? then 0 else 1
  }

  /** Number of insertions, deletions and substitutions in a script. */
  function Cost(ops: seq<EditOp>): nat
  {
    if |ops| == 0 then 0 else Cost(ops[..|ops| - 1]) + OpCost(ops[|ops| - 1])
  }

  function Extend(o: Option<string>, tail: string): Option<string>
  {
    match o
    case None => None
    case Some(s) => Some(s + tail)
  }

  /** Runs a script over `a` left to right: `Keep` copies the next character of `a`,
      `Substitute(c)` replaces it by `c`, `Delete` drops it and `Insert(c)` emits `c`.
      None when the script does not consume exactly `a`. */
  function Apply(ops: seq<EditOp>, a: string): Option<string>
  {
    if |ops| == 0 then (if |a| == 0 then Some([]) else None)
    else
      var rest := ops[..|ops| - 1];
      match ops[|ops| - 1]
      case Keep => if |a| == 0 then None else Extend(Apply(rest, Init(a)), [Last(a)])
      case Substitute(c) => if |a| == 0 then None else Extend(Apply(rest, Init(a)), [c])
      case Delete => if |a| == 0 then None else Apply(rest, Init(a))
      case Insert(c) => Extend(Apply(rest, a), [c])
  }

  /** No script that rewrites `a` into `b` is cheaper than `Distance(a, b)`. */
  lemma {:induction false} ScriptCostBoundsDistance(ops: seq<EditOp>, a: string, b: string)
    requires Apply(ops, a) == Some(b)
    ensures Distance(a, b) <= Cost(ops)
    decreases |ops|
  {
    if |ops| > 0 {
      var rest := ops[..|ops| - 1];
      match ops[|ops| - 1]
      case Keep =>
        var b' := Apply(rest, Init(a)).value;
        assert Init(b) == b';
        ScriptCostBoundsDistance(rest, Init(a), b');
      case Substitute(c) =>
        var b' := Apply(rest, Init(a)).value;
        assert Init(b) == b';
        ScriptCostBoundsDistance(rest, Init(a), b');
      case Delete =>
        ScriptCostBoundsDistance(rest, Init(a), b);
      case Insert(c) =>
        var b' := Apply(rest, a).value;
        assert Init(b) == b';
        ScriptCostBoundsDistance(rest, a, b');
    }
  }

  lemma SnocSplit(s: string)
    requires |s| > 0
    ensures Init(s) + [Last(s)] == s
  {
  }

  /** A script that attains `Distance(a, b)`; with `ScriptCostBoundsDistance` this makes
      `Distance` the minimum cost of rewriting `a` into `b`. */
  function OptimalScript(a: string, b: string): (ops: seq<EditOp>)
    ensures Apply(ops, a) == Some(b)
    ensures Cost(ops) == Distance(a, b)
    decreases |a| + |b|
  {
    if |a| == 0 && |b| == 0 then []
    else if |a| == 0 then
      var ops := OptimalScript(a, Init(b)) + [Insert(Last(b))];
      assert ops[..|ops| - 1] == OptimalScript(a, Init(b));
      SnocSplit(b);
      ops
    else if |b| == 0 then
      var ops := OptimalScript(Init(a), b) + [Delete];
      assert ops[..|ops| - 1] == OptimalScript(Init(a), b);
      ops
    else if Distance(a, b) == Distance(Init(a), Init(b)) + (if Last(a) == Last(b) then 0 else 1) then
      var op := if Last(a) == Last(b) then Keep else Substitute(Last(b));
      var ops := OptimalScript(Init(a), Init(b)) + [op];
      assert ops[..|ops| - 1] == OptimalScript(Init(a), Init(b));
      SnocSplit(b);
      ops
    else if Distance(a, b) == Distance(Init(a), b) + 1 then
      var ops := OptimalScript(Init(a), b) + [Delete];
      assert ops[..|ops| - 1] == OptimalScript(Init(a), b);
      ops
    else
      var ops := OptimalScript(a, Init(b)) + [Insert(Last(b))];
      assert ops[..|ops| - 1] == OptimalScript(a, Init(b));
      SnocSplit(b);
      ops
  }

  /** Runs `o1` and then `o2` as one script: `o1` rewrites `a` into `b`, `o2` rewrites `b`
      onward, and the result rewrites `a` straight to `o2`'s output for no more than the two
      costs together. */
  function Compose(o1: seq<EditOp>, o2: seq<EditOp>, a: string, b: string): (r: seq<EditOp>)
    requires Apply(o1, a) == Some(b)
    requires Apply(o2, b).Some?
    ensures Apply(r, a) == Apply(o2, b)
    ensures Cost(r) <= Cost(o1) + Cost(o2)
    decreases |o1| + |o2|
  {
    if |o2| > 0 && o2[|o2| - 1].Insert? then
      var q := o2[..|o2| - 1];
      var r := Compose(o1, q, a, b) + [o2[|o2| - 1]];
      assert r[..|r| - 1] == Compose(o1, q, a, b);
      r
    else if |o1| > 0 && o1[|o1| - 1].Delete? then
      var p := o1[..|o1| - 1];
      var r := Compose(p, o2, Init(a), b) + [Delete];
      assert r[..|r| - 1] == Compose(p, o2, Init(a), b);
      r
    else if |o1| == 0 then
      []
    else
      assert Apply(o1, a).Some?;
      assert |b| > 0;
      assert Init(b) + [Last(b)] == b;
      ComposeStep(o1, o2, a, b)
  }

  /** `Compose` when the last step of `o1` emits a character and the last step of `o2`
      consumes it. */
  function ComposeStep(o1: seq<EditOp>, o2: seq<EditOp>, a: string, b: string): (r: seq<EditOp>)
    requires Apply(o1, a) == Some(b)
    requires Apply(o2, b).Some?
    requires |o1| > 0 && |o2| > 0 && |b| > 0
    requires !o1[|o1| - 1].Delete? && !o2[|o2| - 1].Insert?
    ensures Apply(r, a) == Apply(o2, b)
    ensures Cost(r) <= Cost(o1) + Cost(o2)
    decreases |o1| + |o2|, 0
  {
    var p, q := o1[..|o1| - 1], o2[..|o2| - 1];
    var op1, op2 := o1[|o1| - 1], o2[|o2| - 1];
    if op1.Insert? then
      assert Apply(p, a) == Some(Init(b));
      if op2.Delete? then
        Compose(p, q, a, Init(b))
      else
        var out := if op2.Keep? then Last(b) else op2.c;
        var r := Compose(p, q, a, Init(b)) + [Insert(out)];
        assert r[..|r| - 1] == Compose(p, q, a, Init(b));
        r
    else
      assert |a| > 0 && Apply(p, Init(a)) == Some(Init(b));
      if op2.Delete? then
        var r := Compose(p, q, Init(a), Init(b)) + [Delete];
        assert r[..|r| - 1] == Compose(p, q, Init(a), Init(b));
        r
      else
        var out := if op2.Keep? then Last(b) else op2.c;
        var op := if out == Last(a) then Keep else Substitute(out);
        var r := Compose(p, q, Init(a), Init(b)) + [op];
        assert r[..|r| - 1] == Compose(p, q, Init(a), Init(b));
        r
  }

  /** Triangle inequality. */
  lemma {:induction false} Triangle(a: string, b: string, c: string)
    ensures Distance(a, c) <= Distance(a, b) + Distance(b, c)
  {
    var o1, o2 := OptimalScript(a, b), OptimalScript(b, c);
    ScriptCostBoundsDistance(Compose(o1, o2, a, b), a, c);
  }

  /** Distance from the empty string is the length of the other. */
  lemma EmptyDistance(b: string)
    ensures Distance("", b) == |b| && Distance(b, "") == |b|
  {
  }

  /** Distance is symmetric. */
  lemma {:induction false} Symmetric(a: string, b: string)
    ensures Distance(a, b) == Distance(b, a)
    decreases |a| + |b|
  {
    if |a| > 0 && |b| > 0 {
      Symmetric(Init(a), Init(b));
      Symmetric(Init(a), b);
      Symmetric(a, Init(b));
    }
  }

  /** Distance is zero exactly between equal strings. */
  lemma {:induction false} ZeroIffEqual(a: string, b: string)
    ensures Distance(a, b) == 0 <==> a == b
    decreases |a| + |b|
  {
    if |a| > 0 && |b| > 0 {
      ZeroIffEqual(Init(a), Init(b));
      SnocSplit(a);
      SnocSplit(b);
      if a == b {
        assert Init(a) == Init(b);
      }
    }
  }

  /** Distance is at most the longer length and at least the difference of the lengths. */
  lemma {:induction false} LengthBounds(a: string, b: string)
    ensures Distance(a, b) <= if |a| < |b| then |b| else |a|
    ensures Distance(a, b) >= if |a| < |b| then |b| - |a| else |a| - |b|
    decreases |a| + |b|
  {
    if |a| > 0 && |b| > 0 {
      LengthBounds(Init(a), Init(b));
      LengthBounds(Init(a), b);
      LengthBounds(a, Init(b));
    }
  }

  /** Dropping the last character of either string moves the distance by at most one. */
  lemma DropLastWithinOne(x: string, y: string)
    requires |y| > 0
    ensures Distance(x, Init(y)) <= Distance(x, y) + 1
    ensures Distance(Init(y), x) <= Distance(y, x) + 1
  {
    Triangle(x, y, Init(y));
    Triangle(Init(y), y, x);
    assert Distance(y, Init(y)) <= 1 by {
      if |Init(y)| > 0 {
        ZeroIffEqual(Init(y), Init(y));
      }
    }
    Symmetric(y, Init(y));
  }

  /** When the last characters agree, the distance is the diagonal one: the case the source
      takes without a minimum when the two characters agree. */
  lemma EqualLastIsDiagonal(a: string, b: string)
    requires |a| > 0 && |b| > 0 && Last(a) == Last(b)
    ensures Distance(a, b) == Distance(Init(a), Init(b))
  {
    DropLastWithinOne(Init(a), b);
    DropLastWithinOne(Init(b), a);
  }

  /** Replacing one character costs at most one edit, wherever it sits: the character
      swaps (`paypa1.com` for `paypal.com`) the fuzzy match is meant to catch. */
  lemma {:induction false} OneSubstitutionWithinOne(p: string, x: char, y: char, q: string)
    ensures Distance(p + [x] + q, p + [y] + q) <= 1
    decreases |q|
  {
    var a, b := p + [x] + q, p + [y] + q;
    if |q| == 0 {
      assert Init(a) == p && Init(b) == p && a == p + [x] && b == p + [y];
      ZeroIffEqual(p, p);
    } else {
      assert Init(a) == p + [x] + Init(q) && Init(b) == p + [y] + Init(q);
      EqualLastIsDiagonal(a, b);
      OneSubstitutionWithinOne(p, x, y, Init(q));
    }
  }

  /** The cell `(i + 1, j + 1)` of the table in terms of its three neighbours, in the shape
      the source computes it. */
  lemma CellStep(a: string, b: string, i: nat, j: nat)
    requires i < |a| && j < |b|
    ensures Distance(a[..i + 1], b[..j + 1]) ==
      if a[i] == b[j] then Distance(a[..i], b[..j])
      else Min3(Distance(a[..i], b[..j]) + 1, Distance(a[..i + 1], b[..j]) + 1, Distance(a[..i], b[..j + 1]) + 1)
  {
    var a', b' := a[..i + 1], b[..j + 1];
    assert Init(a') == a[..i] && Last(a') == a[i];
    assert Init(b') == b[..j] && Last(b') == b[j];
    if a[i] == b[j] {
      EqualLastIsDiagonal(a', b');
    }
  }

  /** content.js `levenshtein`, lines 14-27: the row `tmp` starts as row 0 of the table
      (`tmp[i] = i`) and is advanced one row per character of `a`. */
  method Levenshtein(a: string, b: string) returns (d: nat)
    ensures d == Distance(a, b)
  {
    var tmp: seq<nat> := [];
    var i := 0;
    while i <= |b|
      invariant i <= |b| + 1
      invariant |tmp| == i
      invariant forall k :: 0 <= k < i ==> tmp[k] == Distance(a[..0], b[..k])
    {
      assert a[..0] == "" && |b[..i]| == i;
      EmptyDistance(b[..i]);
      tmp := tmp + [i];
      i := i + 1;
    }
    i := 0;
    while i < |a|
      invariant i <= |a|
      invariant |tmp| == |b| + 1
      invariant forall k :: 0 <= k <= |b| ==> tmp[k] == Distance(a[..i], b[..k])
    {
      tmp := NextRow(a, b, i, tmp);
      i := i + 1;
    }
    assert a[..|a|] == a && b[..|b|] == b;
    d := tmp[|b|];
  }

  /** The body of the outer loop of `levenshtein` (content.js lines 19-25): turns row `i` into
      row `i + 1` in place. `prev` carries the freshly computed cell to the left while
      `tmp[j]` still holds the previous row's value, the diagonal of the next cell. */
  method NextRow(a: string, b: string, i: nat, row: seq<nat>) returns (tmp: seq<nat>)
    requires i < |a|
    requires |row| == |b| + 1
    requires forall k :: 0 <= k <= |b| ==> row[k] == Distance(a[..i], b[..k])
    ensures |tmp| == |b| + 1
    ensures forall k :: 0 <= k <= |b| ==> tmp[k] == Distance(a[..i + 1], b[..k])
  {
    tmp := row;
    var prev: nat := i + 1;
    assert b[..0] == "" && |a[..i + 1]| == i + 1;
    EmptyDistance(a[..i + 1]);
    var j := 0;
    while j < |b|
      invariant j <= |b|
      invariant |tmp| == |b| + 1
      invariant prev == Distance(a[..i + 1], b[..j])
      invariant forall k :: 0 <= k < j ==> tmp[k] == Distance(a[..i + 1], b[..k])
      invariant forall k :: j <= k <= |b| ==> tmp[k] == Distance(a[..i], b[..k])
    {
      CellStep(a, b, i, j);
      var val: nat := if a[i] == b[j] then tmp[j] else Min3(tmp[j] + 1, prev + 1, tmp[j + 1] + 1);
      tmp := tmp[j := prev];
      prev := val;
      j := j + 1;
    }
    tmp := tmp[|b| := prev];
  }
}
