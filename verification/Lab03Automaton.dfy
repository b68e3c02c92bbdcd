/**
 * The elementary (one-dimensional, two-state, radius-one) cellular automaton
 * of `lab_03/main.py`.  A rule number is written as eight binary digits,
 * most significant first (Wolfram's numbering), and a cell with left
 * neighbour l, own value c and right neighbour r takes digit 7 - (4l + 2c + r)
 * of it, which is bit 4l + 2c + r of the number.  The border is periodic for
 * "periodic" and reads missing neighbours as 0 for any other name; a list of
 * rules is applied in turn, one per iteration.
 */
module Lab03Automaton {
  import opened Arith

  /** Every cell is 0 or 1. */
  predicate IsBits(s: seq<int>)
  {
    forall i :: 0 <= i < |s| ==> s[i] == 0 || s[i] == 1
  }

  /** The `boundary` argument: "periodic" or, for every other value, absorbing. */
  datatype Border = Periodic | Absorbing

  function BorderOf(name: string): (b: Border)
    ensures b == Periodic <==> name == "periodic"
  {
    if name == "periodic" then Periodic else Absorbing
  }

  // ---------------------------------------------------------------------
  // Rule numbers
  // ---------------------------------------------------------------------

  /** The binary digits of n, most significant first, without leading zeros ("0" for zero). */
  function Binary(n: nat): (bits: seq<int>)
    ensures |bits| >= 1 && IsBits(bits)
  {
    if n < 2 then [n] else Binary(n / 2) + [n % 2]
  }

  /** The number a sequence of binary digits spells, most significant first. */
  function Value(bits: seq<int>): int
  {
    if |bits| == 0 then 0 else Value(bits[..|bits| - 1]) * 2 + bits[|bits| - 1]
  }

  function Pow2(k: nat): (p: nat)
    ensures p >= 1
  {
    if k == 0 then 1 else 2 * Pow2(k - 1)
  }

  /** `rule_to_bin`: `f"{n:08b}"` digit by digit, the binary digits padded with zeros to at least eight. */
  function RuleToBin(n: nat): (bits: seq<int>)
    ensures IsBits(bits) && |bits| >= 8
  {
    var digits := Binary(n);
    if |digits| < 8 then seq(8 - |digits|, _ => 0) + digits else digits
  }

  /** The digits of Binary spell the number back, and there are at most k of them below 2^k. */
  lemma {:induction false} BinaryValue(n: nat)
    ensures Value(Binary(n)) == n
    ensures forall k: nat :: n < Pow2(k) ==> |Binary(n)| <= k || (k == 0 && n == 0)
  {
    if n >= 2 {
      BinaryValue(n / 2);
      var b := Binary(n);
      assert b[..|b| - 1] == Binary(n / 2);
      forall k: nat | n < Pow2(k) ensures |Binary(n)| <= k {
        assert k >= 1;
        assert n / 2 < Pow2(k - 1);
      }
    }
  }

  /** Leading zeros do not change the value. */
  lemma {:induction false} LeadingZeros(m: nat, bits: seq<int>)
    ensures Value(seq(m, _ => 0) + bits) == Value(bits)
  {
    if |bits| == 0 {
      assert seq(m, _ => 0) + bits == seq(m, _ => 0);
      if m > 0 {
        assert seq(m, _ => 0)[..m - 1] == seq(m - 1, _ => 0);
        LeadingZeros(m - 1, []);
        assert seq(m - 1, _ => 0) + [] == seq(m - 1, _ => 0);
      }
    } else {
      var pre := bits[..|bits| - 1];
      assert (seq(m, _ => 0) + bits)[..|seq(m, _ => 0) + bits| - 1] == seq(m, _ => 0) + pre;
      LeadingZeros(m, pre);
    }
  }

  /**
   * `rule_to_bin` round-trips: its digits spell the rule number, they are
   * exactly eight for the rule numbers 0..255 and more above.
   */
  lemma RuleToBinValue(n: nat)
    ensures Value(RuleToBin(n)) == n
    ensures |RuleToBin(n)| == 8 <==> n < 256
  {
    var digits := Binary(n);
    BinaryValue(n);
    if |digits| < 8 {
      LeadingZeros(8 - |digits|, digits);
    }
    if n >= 256 {
      BinaryLength(n, 8);
    }
    assert Pow2(8) == 256;
  }

  /** A number of at least 2^k has more than k binary digits. */
  lemma {:induction false} BinaryLength(n: nat, k: nat)
    requires n >= Pow2(k)
    ensures |Binary(n)| > k
  {
    if k > 0 {
      BinaryLength(n / 2, k - 1);
    }
  }

  /** Halving k times: the digit k places from the end is bit k of the value. */
  lemma {:induction false} DigitIsBit(bits: seq<int>, k: nat)
    requires IsBits(bits) && k < |bits|
    ensures bits[|bits| - 1 - k] == (Value(bits) / Pow2(k)) % 2
  {
    var pre := bits[..|bits| - 1];
    var last := bits[|bits| - 1];
    var v := Value(pre);
    ValueNonNegative(pre);
    assert Value(bits) == v * 2 + last;
    if k == 0 {
      DivUnique(v * 2 + last, 1, v * 2 + last, 0);
      DivUnique(v * 2 + last, 2, v, last);
    } else {
      DigitIsBit(pre, k - 1);
      assert pre[|pre| - 1 - (k - 1)] == bits[|bits| - 1 - k];
      assert Pow2(k) == 2 * Pow2(k - 1);
      HalveTwice(v, last, Pow2(k - 1));
    }
  }

  lemma {:induction false} ValueNonNegative(bits: seq<int>)
    requires IsBits(bits)
    ensures Value(bits) >= 0
  {
    if |bits| > 0 {
      ValueNonNegative(bits[..|bits| - 1]);
    }
  }

  /** Dropping the last digit first, then dividing by m, is dividing by 2m. */
  lemma HalveTwice(v: nat, b: int, m: nat)
    requires b == 0 || b == 1
    requires m >= 1
    ensures (v * 2 + b) / (2 * m) == v / m
  {
    var q, r := v / m, v % m;
    assert v == q * m + r && 0 <= r < m;
    assert v * 2 + b == q * (2 * m) + (2 * r + b);
    DivUnique(v * 2 + b, 2 * m, q, 2 * r + b);
  }

  /** `compute_new_state`: digit 7 - (4l + 2c + r) of the rule. */
  function ComputeNewState(cell: int, left: int, right: int, rule: seq<int>): (next: int)
    requires cell in {0, 1} && left in {0, 1} && right in {0, 1} && |rule| >= 8
    ensures IsBits(rule) ==> next == 0 || next == 1
  {
    rule[7 - (left * 4 + cell * 2 + right)]
  }

  /**
   * Wolfram's numbering: for a rule number n in 0..255, the new cell is bit
   * 4l + 2c + r of n.
   */
  lemma NewStateIsRuleBit(n: nat, cell: int, left: int, right: int)
    requires n < 256 && cell in {0, 1} && left in {0, 1} && right in {0, 1}
    ensures RuleToBin(n)[7 - (4 * left + 2 * cell + right)] == (n / Pow2(4 * left + 2 * cell + right)) % 2
    ensures ComputeNewState(cell, left, right, RuleToBin(n)) == (n / Pow2(4 * left + 2 * cell + right)) % 2
  {
    RuleToBinValue(n);
    DigitIsBit(RuleToBin(n), 4 * left + 2 * cell + right);
  }

  // ---------------------------------------------------------------------
  // Borders and one step
  // ---------------------------------------------------------------------

  /** `handle_border`: the left and right neighbours of cell i. */
  function HandleBorder(state: seq<int>, i: nat, border: Border): (lr: (int, int))
    requires i < |state|
  {
    match border
    case Periodic =>
      (if i > 0 then state[i - 1] else state[|state| - 1], if i < |state| - 1 then state[i + 1] else state[0])
    case Absorbing =>
      (if i > 0 then state[i - 1] else 0, if i < |state| - 1 then state[i + 1] else 0)
  }

  /**
   * The periodic border reads the ring: the neighbours are the cells at
   * (i - 1) mod n and (i + 1) mod n, so cell 0's left is the last cell and the
   * last cell's right is cell 0.
   */
  lemma PeriodicIsRing(state: seq<int>, i: nat)
    requires i < |state|
    ensures HandleBorder(state, i, Periodic) == (state[(i - 1) % |state|], state[(i + 1) % |state|])
  {
    var n := |state|;
    if i == 0 {
      DivUnique(i - 1, n, -1, n - 1);
    } else {
      DivUnique(i - 1, n, 0, i - 1);
    }
    if i == n - 1 {
      DivUnique(i + 1, n, 1, 0);
    } else {
      DivUnique(i + 1, n, 0, i + 1);
    }
  }

  /** The absorbing border reads the state with one dead cell added at each end. */
  lemma AbsorbingIsPadded(state: seq<int>, i: nat)
    requires i < |state|
    ensures var padded := [0] + state + [0];
      HandleBorder(state, i, Absorbing) == (padded[i], padded[i + 2])
  {
  }

  /** Every cell of the next state, computed from the old state alone. */
  function Step(state: seq<int>, rule: seq<int>, border: Border): (next: seq<int>)
    requires IsBits(state) && |rule| >= 8
    ensures |next| == |state|
    ensures IsBits(rule) ==> IsBits(next)
  {
    seq(|state|, i requires 0 <= i < |state| =>
      var (left, right) := HandleBorder(state, i, border);
      ComputeNewState(state[i], left, right, rule))
  }

  /** Every rule number as digits: `[rule_to_bin(r) for r in rules]`. */
  function RuleSets(rules: seq<nat>): (sets: seq<seq<int>>)
    ensures |sets| == |rules|
    ensures forall j :: 0 <= j < |rules| ==> sets[j] == RuleToBin(rules[j]) && |sets[j]| >= 8 && IsBits(sets[j])
  {
    seq(|rules|, j requires 0 <= j < |rules| => RuleToBin(rules[j]))
  }

  /** The states after 0, 1, …, n iterations, iteration j using rule j mod |rules|. */
  function History(initial: seq<int>, rules: seq<nat>, border: Border, n: nat): (states: seq<seq<int>>)
    requires IsBits(initial) && (n > 0 ==> |rules| > 0)
    ensures |states| == n + 1 && states[0] == initial
    ensures |states[n]| == |initial| && IsBits(states[n])
  {
    if n == 0 then [initial]
    else
      var earlier := History(initial, rules, border, n - 1);
      earlier + [Step(earlier[n - 1], RuleSets(rules)[(n - 1) % |rules|], border)]
  }

  /** Every state of the history is as long as the initial one, and all cells are 0 or 1. */
  lemma {:induction false} HistoryShape(initial: seq<int>, rules: seq<nat>, border: Border, n: nat, j: nat)
    requires IsBits(initial) && (n > 0 ==> |rules| > 0) && j <= n
    ensures |History(initial, rules, border, n)[j]| == |initial| && IsBits(History(initial, rules, border, n)[j])
  {
    if j < n {
      HistoryShape(initial, rules, border, n - 1, j);
      assert History(initial, rules, border, n)[j] == History(initial, rules, border, n - 1)[j];
    }
  }

  /** State k of a longer run is the last state of the run of k iterations. */
  lemma {:induction false} HistoryAt(initial: seq<int>, rules: seq<nat>, border: Border, n: nat, k: nat)
    requires IsBits(initial) && (n > 0 ==> |rules| > 0) && k <= n
    ensures History(initial, rules, border, n)[k] == History(initial, rules, border, k)[k]
  {
    if k < n {
      HistoryAt(initial, rules, border, n - 1, k);
      HistoryExtends(initial, rules, border, n, k);
    }
  }

  /** A longer run keeps the states of a shorter one. */
  lemma HistoryExtends(initial: seq<int>, rules: seq<nat>, border: Border, n: nat, k: nat)
    requires IsBits(initial) && n > 0 && |rules| > 0 && k < n
    ensures History(initial, rules, border, n)[k] == History(initial, rules, border, n - 1)[k]
  {
    var earlier := History(initial, rules, border, n - 1);
    assert History(initial, rules, border, n) == earlier + [Step(earlier[n - 1], RuleSets(rules)[(n - 1) % |rules|], border)];
  }

  /**
   * The iterations are synchronous: state j + 1 is one step of state j under
   * rule j mod |rules|, for every j.
   */
  lemma {:induction false} HistorySteps(initial: seq<int>, rules: seq<nat>, border: Border, n: nat, j: nat)
    requires IsBits(initial) && (n > 0 ==> |rules| > 0) && j < n
    ensures IsBits(History(initial, rules, border, n)[j]) &&
      History(initial, rules, border, n)[j + 1] == Step(History(initial, rules, border, n)[j], RuleToBin(rules[j % |rules|]), border)
  {
    var r := j % |rules|;
    assert 0 <= r < |rules|;
    HistoryAt(initial, rules, border, n, j);
    HistoryAt(initial, rules, border, n, j + 1);
    HistoryLast(initial, rules, border, j);
  }

  /** The last state of a run of j + 1 iterations is one step of the run of j iterations. */
  lemma HistoryLast(initial: seq<int>, rules: seq<nat>, border: Border, j: nat)
    requires IsBits(initial) && |rules| > 0
    ensures IsBits(History(initial, rules, border, j)[j])
    ensures History(initial, rules, border, j + 1)[j + 1] ==
      Step(History(initial, rules, border, j)[j], RuleToBin(rules[j % |rules|]), border)
  {
  }

  /**
   * `automaton`: the initial state, then each new state computed cell by
   * cell from the previous one.  The cells must be 0 or 1: with other values
   * the rule index leaves 0..7 (Python would read a negative one from the
   * end, or fail past the end), and those cases are excluded.  A run of at
   * least one iteration needs a rule.
   */
  method Automaton(initial: seq<int>, rules: seq<nat>, iterations: nat, border: Border) returns (states: seq<seq<int>>)
    requires IsBits(initial) && (iterations > 0 ==> |rules| > 0)
    ensures states == History(initial, rules, border, iterations)
  {
    var state := initial;
    states := [state];
    var ruleSets := RuleSets(rules);
    for j := 0 to iterations
      invariant states == History(initial, rules, border, j)
      invariant state == states[j] && IsBits(state)
    {
      var rule := ruleSets[j % |ruleSets|];
      var newState := NextState(state, rule, border);
      HistoryNext(initial, rules, border, j);
      state := newState;
      states := states + [newState];
    }
  }

  /** Iteration j appends the step of state j with rule j mod |rules|. */
  lemma HistoryNext(initial: seq<int>, rules: seq<nat>, border: Border, j: nat)
    requires IsBits(initial) && |rules| > 0
    ensures var h := History(initial, rules, border, j);
      History(initial, rules, border, j + 1) == h + [Step(h[j], RuleSets(rules)[j % |rules|], border)]
  {
  }

  /** The inner loop of `automaton`: each cell of a copy of the state gets its new value in turn. */
  method NextState(state: seq<int>, rule: seq<int>, border: Border) returns (newState: seq<int>)
    requires IsBits(state) && |rule| >= 8
    ensures newState == Step(state, rule, border)
  {
    ghost var next := Step(state, rule, border);
    newState := state;
    for i := 0 to |state|
      invariant |newState| == |state|
      invariant forall k :: 0 <= k < |state| ==> newState[k] == if k < i then next[k] else state[k]
    {
      var (left, right) := HandleBorder(state, i, border);
      newState := newState[i := ComputeNewState(state[i], left, right, rule)];
    }
  }
}
