/** The display arithmetic of the transaction details panel
    (components/TransactionDetails.tsx): the `MM:SS` countdown to the next
    block, the confirmation count and label it shows, the count the
    "Send Now" message carries, and the total output. */
module TransactionDetails {
  import opened Types
  import opened Text
  import Blockchain

  // ---------------------------------------------------------------------
  // formatTime
  // ---------------------------------------------------------------------

  /** One field of `formatTime`: `String(n).padStart(2, '0')`. */
  function Field(n: nat): (r: string)
    ensures |r| >= 2
    ensures n < 100 ==> |r| == 2
    ensures AllDigits(r) && DigitsValue(r) == n
  {
    DecimalBelow100(n);
    Pad2Value(Decimal(n));
    DecimalReadsBack(n);
    Pad2(Decimal(n))
  }

  /** `formatTime`: whole minutes and the remaining seconds, each padded to
      two digits, around a colon. */
  function FormatTime(totalSeconds: nat): (r: string)
    ensures |r| >= 5 && r[|r| - 3] == ':'
    ensures totalSeconds < 6000 ==> |r| == 5
  {
    var minutes := totalSeconds / 60;
    var seconds := totalSeconds % 60;
    assert seconds < 100 && (totalSeconds < 6000 ==> minutes < 100);
    Field(minutes) + ":" + Field(seconds)
  }

  lemma DecimalBelow100(n: nat)
    ensures n < 100 ==> |Decimal(n)| <= 2
  {
    if 10 <= n < 100 {
      assert Decimal(n) == Decimal(n / 10) + [DigitChar(n % 10)];
    }
  }

  /** Padding a digit string to two places keeps its value. */
  lemma Pad2Value(s: string)
    requires AllDigits(s)
    ensures AllDigits(Pad2(s)) && DigitsValue(Pad2(s)) == DigitsValue(s)
  {
    if |s| == 1 {
      LeadingZeroValue(s);
    } else if |s| == 0 {
      LeadingZeroValue("0");
      LeadingZeroValue("");
    }
  }

  /** `formatTime(n)` is the minutes field, a colon and a two-character
      seconds field; `Field`'s contract reads each field back as its number. */
  lemma FormatTimeFields(n: nat)
    ensures var r := FormatTime(n);
            var k := |r| - 3;
            r[..k] == Field(n / 60) && r[k + 1..] == Field(n % 60) && |r[k + 1..]| == 2
  {
    var mm, ss := Field(n / 60), Field(n % 60);
    assert FormatTime(n) == mm + [':'] + ss;
    Around(mm, ':', ss);
  }

  lemma Around(x: string, c: char, y: string)
    ensures var r := x + [c] + y;
            r[..|r| - |y| - 1] == x && r[|r| - |y|..] == y
  {
  }

  // ---------------------------------------------------------------------
  // The countdown
  // ---------------------------------------------------------------------

  /** Ten minutes, the nominal block interval. */
  const COUNTDOWN_START := 600

  /** One tick of the interval: count down, and start over after zero. */
  function NextCount(prev: int): (next: int)
    ensures prev > 0 ==> next == prev - 1
    ensures prev <= 0 ==> next == COUNTDOWN_START
    ensures 0 <= prev <= COUNTDOWN_START ==> 0 <= next <= COUNTDOWN_START
  {
    if prev > 0 then prev - 1 else COUNTDOWN_START
  }

  /** The value after `k` ticks from `v`. */
  function Ticked(v: int, k: nat): int
    decreases k
  {
    if k == 0 then v else Ticked(NextCount(v), k - 1)
  }

  /** From any value in range, `k` ticks land on a value in range, cycling
      with period 601: `600, 599, …, 0, 600, …`. */
  lemma {:induction false} TicksCycle(j: nat, k: nat)
    requires j <= COUNTDOWN_START
    ensures Ticked(COUNTDOWN_START - j, k) == COUNTDOWN_START - (j + k) % 601
    ensures 0 <= Ticked(COUNTDOWN_START - j, k) <= COUNTDOWN_START
    decreases k
  {
    if k > 0 {
      if j < COUNTDOWN_START {
        TicksCycle(j + 1, k - 1);
        assert j + 1 + (k - 1) == j + k;
      } else {
        TicksCycle(0, k - 1);
        assert (j + k) % 601 == (k - 1) % 601 by {
          assert j + k == (k - 1) + 601;
        }
      }
    }
  }

  /** The countdown state of the panel and its interval. */
  class Countdown {
    var value: int
    var running: bool

    ghost predicate Valid()
      reads this
    {
      0 <= value <= COUNTDOWN_START
    }

    constructor ()
      ensures Valid() && value == COUNTDOWN_START && !running
    {
      value := COUNTDOWN_START;
      running := false;
    }

    /** The effect run when the selected transaction or its `confirmed` flag
        changes: reset to 600, and keep an interval only while the loaded
        transaction (`Some(confirmed)`) is unconfirmed. */
    method Restart(loaded: Option<bool>)
      modifies this
      ensures Valid() && value == COUNTDOWN_START
      ensures running <==> loaded == Some(false)
    {
      value := COUNTDOWN_START;
      running := loaded == Some(false);
    }

    /** One second elapses; only a running interval ticks. */
    method Tick()
      requires Valid()
      modifies this
      ensures Valid() && running == old(running)
      ensures value == if running then NextCount(old(value)) else old(value)
    {
      if running {
        value := NextCount(value);
      }
    }
  }

  // ---------------------------------------------------------------------
  // Confirmations, block label and total output
  // ---------------------------------------------------------------------

  // The panel computes its count with the same expression the hook uses when
  // an id is added, so the model reuses Blockchain.AddedConfirmations.

  /** "Confirmed" is shown exactly when the count is positive, that is, when
      the lookup says confirmed at a height the tip has reached. */
  lemma ConfirmedShown(st: TxStatus, tip: Option<int>)
    ensures Blockchain.AddedConfirmations(st, tip) > 0
            <==> st.confirmed && Truthy(st.blockHeight) && Truthy(tip) && st.blockHeight.value <= tip.value
  {
  }

  /** The count the "Send Now" message carries, which does not look at
      `confirmed`. */
  function SendNowConfirmations(st: TxStatus, tip: Option<int>): (n: int)
    ensures Truthy(st.blockHeight) && Truthy(tip) ==> n == tip.value - st.blockHeight.value + 1
    ensures !(Truthy(st.blockHeight) && Truthy(tip)) ==> n == 0
  {
    if Truthy(st.blockHeight) && Truthy(tip) then tip.value - st.blockHeight.value + 1 else 0
  }

  /** The message and the panel agree on a confirmed transaction; on an
      unconfirmed one that nevertheless carries a height they differ. */
  lemma SendNowVersusPanel(st: TxStatus, tip: Option<int>)
    ensures st.confirmed ==> SendNowConfirmations(st, tip) == Blockchain.AddedConfirmations(st, tip)
    ensures !st.confirmed && Truthy(st.blockHeight) && Truthy(tip) && st.blockHeight.value <= tip.value ==>
              SendNowConfirmations(st, tip) > 0 && Blockchain.AddedConfirmations(st, tip) == 0
  {
  }

  /** The "Block" field: the height, or `Mempool` without one. A height of 0
      still prints as "0", which is truthy text. */
  datatype BlockField = AtHeight(height: int) | Mempool

  function BlockLabel(blockHeight: Option<int>): (f: BlockField)
    ensures f == Mempool <==> blockHeight.None?
    ensures f.AtHeight? ==> f.height == blockHeight.value
  {
    if blockHeight.Some? then AtHeight(blockHeight.value) else Mempool
  }

  /** `vout.reduce((sum, o) => sum + o.value, 0)`, over the output values in
      satoshis. */
  function TotalOutput(values: seq<int>): int
  {
    if values == [] then 0 else TotalOutput(values[..|values| - 1]) + values[|values| - 1]
  }

  /** The total of a list of outputs split in two is the sum of the totals. */
  lemma {:induction false} TotalOutputAppend(a: seq<int>, b: seq<int>)
    ensures TotalOutput(a + b) == TotalOutput(a) + TotalOutput(b)
  {
    if b != [] {
      var c := a + b;
      assert c[..|c| - 1] == a + b[..|b| - 1];
      TotalOutputAppend(a, b[..|b| - 1]);
    } else {
      assert a + b == a;
    }
  }

  /** With no negative output, the total bounds every single output. */
  lemma {:induction false} TotalOutputBounds(values: seq<int>)
    requires forall i :: 0 <= i < |values| ==> values[i] >= 0
    ensures TotalOutput(values) >= 0
    ensures forall i :: 0 <= i < |values| ==> values[i] <= TotalOutput(values)
  {
    if values != [] {
      TotalOutputBounds(values[..|values| - 1]);
    }
  }
}
