/** The watch-set logic of the `useBlockchain` hook: the in-memory map from
    transaction id to its confirmation state, the add and remove operations
    with their rollbacks, and the reconciliation pass run on every new tip
    height together with the notification policy it applies.

    Every network answer is a parameter: a transaction lookup is an
    `Option<TxStatus>` (`None` when `fetchTransaction` returned null), a save
    or delete is a `bool`, and the settings request a `LevelFetch`. A call of
    `sendTelegramNotification` is a `Notification` in the returned list. */
module Blockchain {
  import opened Types
  import opened Text

  // ---------------------------------------------------------------------
  // Notification policy
  // ---------------------------------------------------------------------

  /** What `fetch('/api/settings')` and `res.json()` yield. */
  datatype LevelFetch =
    | Unreachable                     // the request or the decoding threw
    | NotOk                           // a non-2xx answer
    | Fetched(level: Option<string>)  // `settings.notificationLevel`, when the body has one

  /** `settings.notificationLevel || 'first'`, or `'first'` when the answer was not ok. */
  function EffectiveLevel(f: LevelFetch): (level: string)
    requires !f.Unreachable?
    ensures level != ""
    ensures f.Fetched? && Present(f.level) ==> level == f.level.value
    ensures !(f.Fetched? && Present(f.level)) ==> level == FIRST
  {
    if f.Fetched? && Present(f.level) then f.level.value else FIRST
  }

  /** How the pass reads the notification level: the three levels it names,
      and everything else (`none` included), which it treats alike. */
  datatype Policy = FirstOnly | FirstTwo | Every | Silent

  function PolicyOf(level: string): (p: Policy)
    ensures p == FirstOnly <==> level == FIRST
    ensures p == FirstTwo <==> level == FIRST_TWO
    ensures p == Every <==> level == ALL
    ensures p == Silent <==> level !in {FIRST, FIRST_TWO, ALL}
  {
    if level == FIRST then FirstOnly
    else if level == FIRST_TWO then FirstTwo
    else if level == ALL then Every
    else Silent
  }

  /** Whether a crossing to `newConf` confirmations raises an alert: `isFirst`
      for an entry that was not yet confirmed, otherwise a later increase. */
  function ShouldNotify(policy: Policy, isFirst: bool, newConf: int): (notify: bool)
    ensures policy == Silent ==> !notify
    ensures policy == FirstOnly ==> (notify <==> isFirst && newConf == 1)
    ensures policy == FirstTwo ==> (notify <==> newConf == if isFirst then 1 else 2)
    ensures policy == Every ==> (notify <==> !isFirst || newConf == 1)
  {
    if isFirst then newConf == 1 && policy != Silent
    else
      match policy
      case FirstTwo => newConf == 2
      case Every => true
      case _ => false
  }

  /** A call of `sendTelegramNotification`, by the kind of message it carries. */
  datatype Notification =
    | ConfirmedAlert(txid: string, block: int)
    | NewConfirmation(txid: string, total: int)
    | NowWatching(txid: string, confirmations: int)

  // ---------------------------------------------------------------------
  // One entry, one pass
  // ---------------------------------------------------------------------

  /** `Partial<WatchedTransaction>`: the fields an update overwrites. */
  datatype Patch = Patch(status: Option<Status>, confirmations: Option<int>, blockHeight: Option<Option<int>>)

  /** `{ ...existing, ...updates }`. */
  function Merge(tx: WatchedTx, p: Patch): (r: WatchedTx)
    ensures r.id == tx.id
  {
    WatchedTx(tx.id, p.status.GetOr(tx.status), p.confirmations.GetOr(tx.confirmations),
              p.blockHeight.GetOr(tx.blockHeight))
  }

  function LookupOf(lookups: map<string, TxStatus>, txid: string): Option<TxStatus>
  {
    if txid in lookups then Some(lookups[txid]) else None
  }

  function Max(a: int, b: int): int { if a >= b then a else b }

  /** The effect of one pass on one entry: its new value, the alert it raised,
      and whether its lookup failed. */
  datatype Step = Step(tx: WatchedTx, note: Option<Notification>, lookupFailed: bool)

  /** The body of the pass for one entry, against tip height `tip`. */
  function Evaluate(tx: WatchedTx, tip: int, policy: Policy, lookup: Option<TxStatus>): (s: Step)
    ensures s.tx.id == tx.id
  {
    if tx.status != Confirmed then
      if lookup.None? then Step(tx, None, true)
      else if lookup.value.confirmed && Truthy(lookup.value.blockHeight) then
        var h := lookup.value.blockHeight.value;
        var n := tip - h + 1;
        Step(tx.(status := Confirmed, confirmations := n, blockHeight := Some(h)),
             if ShouldNotify(policy, true, n) then Some(ConfirmedAlert(tx.id, h)) else None, false)
      else Step(tx, None, false)
    else if Truthy(tx.blockHeight) then
      var n := tip - tx.blockHeight.value + 1;
      if n > tx.confirmations then
        Step(tx.(confirmations := n),
             if ShouldNotify(policy, false, n) then Some(NewConfirmation(tx.id, n)) else None, false)
      else Step(tx, None, false)
    else Step(tx, None, false)
  }

  /** What one pass does to one entry. */
  lemma EvaluateEffect(tx: WatchedTx, tip: int, policy: Policy, lookup: Option<TxStatus>)
    ensures var s := Evaluate(tx, tip, policy, lookup);
      // a failed lookup leaves the entry as it was and raises nothing
      && (s.lookupFailed <==> tx.status != Confirmed && lookup.None?)
      && (s.lookupFailed ==> s.tx == tx && s.note == None)
      // whatever changes ends confirmed, counted against this tip
      && (s.tx != tx ==>
            s.tx.status == Confirmed && Truthy(s.tx.blockHeight)
            && s.tx.confirmations == tip - s.tx.blockHeight.value + 1)
      // an unconfirmed entry changes exactly when the lookup reports a block, and takes its height
      && (tx.status != Confirmed ==>
            (s.tx != tx <==> lookup.Some? && lookup.value.confirmed && Truthy(lookup.value.blockHeight)))
      && (tx.status != Confirmed && s.tx != tx ==> s.tx.blockHeight == lookup.value.blockHeight)
      // a confirmed entry keeps its block and its count never goes down
      && (tx.status == Confirmed ==>
            s.tx.status == Confirmed && s.tx.blockHeight == tx.blockHeight
            && s.tx.confirmations >= tx.confirmations)
      && (tx.status == Confirmed && Truthy(tx.blockHeight) ==>
            s.tx.confirmations == Max(tx.confirmations, tip - tx.blockHeight.value + 1))
      // at most one alert, only for a change the policy selects
      && (s.note.Some? <==> s.tx != tx && ShouldNotify(policy, tx.status != Confirmed, s.tx.confirmations))
      && (s.note.Some? ==>
            s.note.value == if tx.status != Confirmed then ConfirmedAlert(tx.id, s.tx.blockHeight.value)
                            else NewConfirmation(tx.id, s.tx.confirmations))
  {
  }

  /** The watch set after a full pass. */
  function ReconcileMap(m: map<string, WatchedTx>, tip: int, policy: Policy, lookups: map<string, TxStatus>)
    : (r: map<string, WatchedTx>)
    ensures r.Keys == m.Keys
  {
    map k | k in m :: Evaluate(m[k], tip, policy, LookupOf(lookups, k)).tx
  }

  /** The watch set after visiting the entries `done` of the snapshot `m`,
      in that order, each against its snapshot value. */
  function Visited(m: map<string, WatchedTx>, done: seq<string>, tip: int, policy: Policy,
                   lookups: map<string, TxStatus>): map<string, WatchedTx>
  {
    if done == [] then m
    else
      var k := done[|done| - 1];
      var r := Visited(m, done[..|done| - 1], tip, policy, lookups);
      if k in m then r[k := Evaluate(m[k], tip, policy, LookupOf(lookups, k)).tx] else r
  }

  /** An entry not yet visited keeps its snapshot value; a visited one holds
      its evaluation, however often it was visited. */
  lemma {:induction false} VisitedAt(m: map<string, WatchedTx>, done: seq<string>, tip: int, policy: Policy,
                                     lookups: map<string, TxStatus>, k: string)
    requires k in m
    ensures k in Visited(m, done, tip, policy, lookups)
    ensures Visited(m, done, tip, policy, lookups)[k]
            == if k in done then Evaluate(m[k], tip, policy, LookupOf(lookups, k)).tx else m[k]
  {
    if done != [] {
      var init := done[..|done| - 1];
      assert done == init + [done[|done| - 1]];
      VisitedAt(m, init, tip, policy, lookups, k);
    }
  }

  /** Visiting entries never adds or drops a key. */
  lemma {:induction false} VisitedKeys(m: map<string, WatchedTx>, done: seq<string>, tip: int, policy: Policy,
                                       lookups: map<string, TxStatus>)
    ensures Visited(m, done, tip, policy, lookups).Keys == m.Keys
  {
    if done != [] {
      VisitedKeys(m, done[..|done| - 1], tip, policy, lookups);
    }
  }

  /** Visiting every key of the snapshot gives the watch set of a full pass. */
  lemma VisitedAll(m: map<string, WatchedTx>, keys: seq<string>, tip: int, policy: Policy,
                   lookups: map<string, TxStatus>)
    requires forall k | k in m :: k in keys
    ensures Visited(m, keys, tip, policy, lookups) == ReconcileMap(m, tip, policy, lookups)
  {
    VisitedKeys(m, keys, tip, policy, lookups);
    forall k | k in m
      ensures Visited(m, keys, tip, policy, lookups)[k] == ReconcileMap(m, tip, policy, lookups)[k]
    {
      VisitedAt(m, keys, tip, policy, lookups, k);
    }
  }

  /** The alerts of a pass over `keys`, in that order. */
  function Notes(keys: seq<string>, m: map<string, WatchedTx>, tip: int, policy: Policy,
                 lookups: map<string, TxStatus>): seq<Notification>
  {
    if keys == [] then []
    else
      var last := keys[|keys| - 1];
      var rest := Notes(keys[..|keys| - 1], m, tip, policy, lookups);
      if last !in m then rest
      else
        var s := Evaluate(m[last], tip, policy, LookupOf(lookups, last));
        rest + (if s.note.Some? then [s.note.value] else [])
  }

  /** A pass over distinct keys, each holding the entry with that id, raises
      at most one alert per entry: every alert names a visited key, and no two
      alerts name the same one. */
  lemma {:induction false} NotesAtMostOnePerEntry(keys: seq<string>, m: map<string, WatchedTx>, tip: int,
                                                  policy: Policy, lookups: map<string, TxStatus>)
    requires Distinct(keys) && forall k | k in m :: m[k].id == k
    ensures var ns := Notes(keys, m, tip, policy, lookups);
      && |ns| <= |keys|
      && (forall n | n in ns :: n.txid in keys)
      && (forall i, j :: 0 <= i < j < |ns| ==> ns[i].txid != ns[j].txid)
  {
    if keys != [] {
      var init, last := keys[..|keys| - 1], keys[|keys| - 1];
      assert keys == init + [last];
      assert Distinct(init) && last !in init;
      NotesAtMostOnePerEntry(init, m, tip, policy, lookups);
      var rest := Notes(init, m, tip, policy, lookups);
      if last in m {
        var s := Evaluate(m[last], tip, policy, LookupOf(lookups, last));
        if s.note.Some? {
          EvaluateEffect(m[last], tip, policy, LookupOf(lookups, last));
          assert s.note.value.txid == last;
          var ns := rest + [s.note.value];
          forall i, j | 0 <= i < j < |ns|
            ensures ns[i].txid != ns[j].txid
          {
            assert ns[i] == rest[i] && rest[i] in rest;
          }
        }
      }
    }
  }

  /** The error state after a pass over `keys` that started with `before`:
      a failed lookup replaces it with its own message, so the last failure wins. */
  function PassError(keys: seq<string>, m: map<string, WatchedTx>, lookups: map<string, TxStatus>,
                     before: Option<HookError>): Option<HookError>
  {
    if keys == [] then before
    else
      var last := keys[|keys| - 1];
      if last in m && m[last].status != Confirmed && last !in lookups then Some(FetchFailed(last))
      else PassError(keys[..|keys| - 1], m, lookups, before)
  }

  /** A pass whose every lookup succeeded, or that saw only confirmed
      entries, leaves the error state as it was. */
  lemma {:induction false} PassErrorUnchanged(keys: seq<string>, m: map<string, WatchedTx>,
                                              lookups: map<string, TxStatus>, before: Option<HookError>)
    requires forall k | k in keys && k in m :: m[k].status == Confirmed || k in lookups
    ensures PassError(keys, m, lookups, before) == before
  {
    if keys != [] {
      PassErrorUnchanged(keys[..|keys| - 1], m, lookups, before);
    }
  }

  /** Visiting one more entry `k` of the snapshot `m`, with effect `s`: the
      watch set takes its new value, its alert (if any) is appended, and the
      error becomes that of its lookup when the lookup failed. */
  lemma PassStep(m: map<string, WatchedTx>, done: seq<string>, k: string, tip: int, policy: Policy,
                 lookups: map<string, TxStatus>, before: Option<HookError>, s: Step)
    requires k in m && s == Evaluate(m[k], tip, policy, LookupOf(lookups, k))
    ensures Visited(m, done + [k], tip, policy, lookups) == Visited(m, done, tip, policy, lookups)[k := s.tx]
    ensures Notes(done + [k], m, tip, policy, lookups)
            == Notes(done, m, tip, policy, lookups) + (if s.note.Some? then [s.note.value] else [])
    ensures PassError(done + [k], m, lookups, before)
            == if s.lookupFailed then Some(FetchFailed(k)) else PassError(done, m, lookups, before)
  {
    assert (done + [k])[..|done|] == done;
  }

  // ---------------------------------------------------------------------
  // Properties of the pass
  // ---------------------------------------------------------------------

  /** Evaluating an entry a second time against the same tip and the same
      lookup changes nothing and raises nothing. */
  lemma EvaluateTwice(tx: WatchedTx, tip: int, policy: Policy, lookup: Option<TxStatus>)
    ensures var s := Evaluate(tx, tip, policy, lookup);
            Evaluate(s.tx, tip, policy, lookup).tx == s.tx && Evaluate(s.tx, tip, policy, lookup).note == None
  {
  }

  /** A second pass at the same tip, with the same lookup answers, changes
      no entry and sends no alert. */
  lemma {:induction false} ReconcileIdempotent(keys: seq<string>, m: map<string, WatchedTx>, tip: int,
                                               policy: Policy, lookups: map<string, TxStatus>)
    ensures ReconcileMap(ReconcileMap(m, tip, policy, lookups), tip, policy, lookups)
            == ReconcileMap(m, tip, policy, lookups)
    ensures Notes(keys, ReconcileMap(m, tip, policy, lookups), tip, policy, lookups) == []
  {
    var once := ReconcileMap(m, tip, policy, lookups);
    forall k | k in m
      ensures ReconcileMap(once, tip, policy, lookups)[k] == once[k]
    {
      EvaluateTwice(m[k], tip, policy, LookupOf(lookups, k));
    }
    if keys != [] {
      var last := keys[|keys| - 1];
      if last in m {
        EvaluateTwice(m[last], tip, policy, LookupOf(lookups, last));
      }
      ReconcileIdempotent(keys[..|keys| - 1], m, tip, policy, lookups);
    }
  }

  /** Whatever the lookups of a second pass at the same tip answer, every
      entry the first pass left confirmed is left as it is, without an alert:
      confirmed entries are not looked up again, and their count already
      reaches `tip - block + 1`. */
  lemma ConfirmedSettled(m: map<string, WatchedTx>, tip: int, policy: Policy,
                         first: map<string, TxStatus>, second: map<string, TxStatus>, k: string)
    requires k in m
    requires ReconcileMap(m, tip, policy, first)[k].status == Confirmed
    ensures var once := ReconcileMap(m, tip, policy, first);
      && Evaluate(once[k], tip, policy, LookupOf(second, k)) == Step(once[k], None, false)
      && ReconcileMap(once, tip, policy, second)[k] == once[k]
  {
    EvaluateEffect(m[k], tip, policy, LookupOf(first, k));
  }

  /** Confirmed entries stay confirmed in the same block, never lose a
      confirmation, and end at `tip - block + 1` whenever they were touched. */
  lemma ReconcileMonotone(m: map<string, WatchedTx>, tip: int, policy: Policy, lookups: map<string, TxStatus>, k: string)
    requires k in m && m[k].status == Confirmed
    ensures var r := ReconcileMap(m, tip, policy, lookups);
      && r[k].status == Confirmed && r[k].blockHeight == m[k].blockHeight
      && r[k].confirmations >= m[k].confirmations
      && (r[k] != m[k] ==> r[k].confirmations == tip - m[k].blockHeight.value + 1)
  {
  }

  /** There is no guard against a tip below the reported block: the entry is
      marked confirmed with a count of zero or less, and no alert is raised. */
  lemma StaleTipConfirmsWithoutCount(tx: WatchedTx, tip: int, policy: Policy, h: int)
    requires tx.status != Confirmed && h != 0 && tip < h
    ensures var s := Evaluate(tx, tip, policy, Some(TxStatus(true, Some(h))));
      s.tx.status == Confirmed && s.tx.confirmations <= 0 && s.note == None
  {
  }

  /** A lookup that succeeds without a block leaves an entry as it was: a
      `pending` entry stays `pending` rather than becoming `unconfirmed`. */
  lemma PendingStaysPending(tx: WatchedTx, tip: int, policy: Policy, st: TxStatus)
    requires tx.status == Pending && !(st.confirmed && Truthy(st.blockHeight))
    ensures Evaluate(tx, tip, policy, Some(st)) == Step(tx, None, false)
  {
  }

  /** One pass per tip height: the tip and the lookup answer for one entry. */
  datatype Pass = Pass(tip: int, lookup: Option<TxStatus>)

  /** The number of alerts one entry raises over successive passes. */
  function Alerts(tx: WatchedTx, policy: Policy, passes: seq<Pass>): nat
    decreases |passes|
  {
    if passes == [] then 0
    else
      var s := Evaluate(tx, passes[0].tip, policy, passes[0].lookup);
      (if s.note.Some? then 1 else 0) + Alerts(s.tx, policy, passes[1..])
  }

  /** Level `first` alerts an entry at most once over any run of passes, and
      never once it is confirmed. */
  lemma {:induction false} FirstAlertsAtMostOnce(tx: WatchedTx, passes: seq<Pass>)
    ensures Alerts(tx, FirstOnly, passes) <= if tx.status == Confirmed then 0 else 1
    decreases |passes|
  {
    if passes != [] {
      var s := Evaluate(tx, passes[0].tip, FirstOnly, passes[0].lookup);
      FirstAlertsAtMostOnce(s.tx, passes[1..]);
    }
  }

  /** Under level `first`, an entry whose first confirmed pass already counts
      two or more (the tip moved on by several blocks before the pass) is
      never alerted at all. */
  lemma FirstMissedWhenLate(tx: WatchedTx, tip: int, h: int, passes: seq<Pass>)
    requires tx.status != Confirmed && h != 0 && tip - h + 1 >= 2
    ensures Alerts(tx, FirstOnly, [Pass(tip, Some(TxStatus(true, Some(h))))] + passes) == 0
  {
    var all := [Pass(tip, Some(TxStatus(true, Some(h))))] + passes;
    var s := Evaluate(tx, tip, FirstOnly, Some(TxStatus(true, Some(h))));
    assert s.note == None && s.tx.status == Confirmed;
    assert all[1..] == passes;
    FirstAlertsAtMostOnce(s.tx, passes);
  }

  /** Level `first_two` alerts an entry at most twice: once on its first
      confirmation and once on reaching two. */
  lemma {:induction false} FirstTwoAlertsAtMostTwice(tx: WatchedTx, passes: seq<Pass>)
    ensures Alerts(tx, FirstTwo, passes) <=
      if tx.status != Confirmed then 2 else if tx.confirmations < 2 then 1 else 0
    decreases |passes|
  {
    if passes != [] {
      var s := Evaluate(tx, passes[0].tip, FirstTwo, passes[0].lookup);
      FirstTwoAlertsAtMostTwice(s.tx, passes[1..]);
    }
  }

  /** Level `none`, and any level the pass does not name, never alerts. */
  lemma {:induction false} SilentLevelsNeverAlert(tx: WatchedTx, passes: seq<Pass>)
    ensures Alerts(tx, Silent, passes) == 0
    decreases |passes|
  {
    if passes != [] {
      var s := Evaluate(tx, passes[0].tip, Silent, passes[0].lookup);
      SilentLevelsNeverAlert(s.tx, passes[1..]);
    }
  }

  /** The number of passes that change an entry. The policy decides only
      the alerts, never the new entry, so it is left `Silent` here. */
  function Changes(tx: WatchedTx, passes: seq<Pass>): nat
    decreases |passes|
  {
    if passes == [] then 0
    else
      var s := Evaluate(tx, passes[0].tip, Silent, passes[0].lookup);
      (if s.tx != tx then 1 else 0) + Changes(s.tx, passes[1..])
  }

  /** Under level `all`, a pass alerts a confirmed entry exactly when its count
      rises, and the alert carries the new count `tip - block + 1`. */
  lemma EveryAlertsOnRise(tx: WatchedTx, tip: int, lookup: Option<TxStatus>)
    ensures var s := Evaluate(tx, tip, Every, lookup);
      tx.status == Confirmed ==>
        && (s.note.Some? <==> s.tx.confirmations > tx.confirmations)
        && (s.note.Some? ==> s.note == Some(NewConfirmation(tx.id, tip - tx.blockHeight.value + 1)))
  {
  }

  /** Level `all` alerts a confirmed entry on every pass that changes it, so
      once per new block however far the tip jumped; an entry not yet
      confirmed alerts on no more passes than change it. */
  lemma {:induction false} AllAlertsOnEveryRise(tx: WatchedTx, passes: seq<Pass>)
    ensures Alerts(tx, Every, passes) <= Changes(tx, passes) <= |passes|
    ensures tx.status == Confirmed ==> Alerts(tx, Every, passes) == Changes(tx, passes)
    decreases |passes|
  {
    if passes != [] {
      var s := Evaluate(tx, passes[0].tip, Every, passes[0].lookup);
      assert s.tx == Evaluate(tx, passes[0].tip, Silent, passes[0].lookup).tx;
      EvaluateEffect(tx, passes[0].tip, Every, passes[0].lookup);
      AllAlertsOnEveryRise(s.tx, passes[1..]);
    }
  }

  // ---------------------------------------------------------------------
  // Adding and removing
  // ---------------------------------------------------------------------

  /** The id check: exactly 64 hexadecimal characters, either case. */
  predicate IsTxid(txid: string)
  {
    |txid| == 64 && forall i :: 0 <= i < |txid| ==> IsHexDigit(txid[i])
  }

  /** The count stored when an id is added: `tip - h + 1` when the lookup says
      confirmed with a (truthy) height and the tip is known, else 0. */
  function AddedConfirmations(st: TxStatus, tip: Option<int>): (n: int)
    ensures n != 0 ==> st.confirmed && Truthy(st.blockHeight) && Truthy(tip)
    ensures st.confirmed && Truthy(st.blockHeight) && Truthy(tip) ==> n == tip.value - st.blockHeight.value + 1
  {
    if st.confirmed && Truthy(st.blockHeight) && Truthy(tip) then tip.value - st.blockHeight.value + 1 else 0
  }

  /** The entry an add stores once its lookup succeeded. */
  function Resolved(txid: string, st: TxStatus, tip: Option<int>): (tx: WatchedTx)
    ensures tx.id == txid && tx.blockHeight == st.blockHeight
    ensures tx.confirmations == AddedConfirmations(st, tip)
    ensures tx.status == Confirmed <==> tx.confirmations > 0
    ensures tx.status != Confirmed ==> tx.status == Unconfirmed
  {
    var n := AddedConfirmations(st, tip);
    WatchedTx(txid, if n > 0 then Confirmed else Unconfirmed, n, st.blockHeight)
  }

  /** An entry added as confirmed is already up to date for a pass at the same
      tip: the pass changes nothing and raises nothing. */
  lemma AddedThenReconciled(txid: string, st: TxStatus, tip: int, policy: Policy, lookup: Option<TxStatus>)
    requires AddedConfirmations(st, Some(tip)) > 0
    ensures var tx := Resolved(txid, st, Some(tip));
            Evaluate(tx, tip, policy, lookup) == Step(tx, None, false)
  {
  }

  predicate Distinct(s: seq<string>)
  {
    forall i, j :: 0 <= i < j < |s| ==> s[i] != s[j]
  }

  /** `s` with every occurrence of `x` removed, order kept. */
  function Without(s: seq<string>, x: string): (r: seq<string>)
    ensures forall y :: y in r <==> y in s && y != x
    ensures x !in s ==> r == s
    ensures Distinct(s) ==> Distinct(r)
  {
    if s == [] then []
    else
      var init := Without(s[..|s| - 1], x);
      var last := s[|s| - 1];
      assert s == s[..|s| - 1] + [last];
      assert Distinct(s) ==> last !in s[..|s| - 1];
      if last == x then init else init + [last]
  }

  /** Removing a key from a list of distinct keys closes the gap it leaves
      and keeps every other key in its order. */
  lemma {:induction false} WithoutAt(s: seq<string>, i: nat)
    requires Distinct(s) && i < |s|
    ensures Without(s, s[i]) == s[..i] + s[i + 1..]
    decreases |s|
  {
    var init, last := s[..|s| - 1], s[|s| - 1];
    assert s == init + [last];
    if i == |s| - 1 {
      assert s[i] !in init;
      assert s[..i] + s[i + 1..] == init;
    } else {
      assert Distinct(init) && init[i] == s[i] && last != s[i];
      WithoutAt(init, i);
      assert s[..i] + s[i + 1..] == (init[..i] + init[i + 1..]) + [last];
    }
  }

  /** Removing an id that was just appended to a list without it gives the list back. */
  lemma WithoutAppended(s: seq<string>, x: string)
    requires x !in s
    ensures Without(s + [x], x) == s
  {
    assert (s + [x])[..|s|] == s;
  }

  /** Deleting a key that was just inserted into a map without it gives the map back. */
  lemma DeleteInserted(m: map<string, WatchedTx>, k: string, v: WatchedTx)
    requires k !in m
    ensures m[k := v] - {k} == m
  {
  }

  /** The hook's error state, by the message it shows. */
  datatype HookError =
    | NotLoggedIn
    | InvalidId
    | AlreadyWatched
    | FetchFailed(txid: string)
    | SaveFailed
    | SettingsFailed
    | RemoveFailed
    | LoadFailed

  /** The outcome of tracking a new, well-formed id `txid`: the watch set,
      its key order, the error state and the alerts sent. A failed lookup, a
      failed save, or a settings request that throws after a confirmed save
      leaves the watch set as it was. */
  function Tracked(txs: map<string, WatchedTx>, order: seq<string>, tip: Option<int>, txid: string,
                   lookup: Option<TxStatus>, saved: bool, levelFetch: LevelFetch)
    : (r: (map<string, WatchedTx>, seq<string>, Option<HookError>, seq<Notification>))
    // every failure is a rollback: the watch set and its order are as before and nothing is sent
    ensures r.2.Some? ==> r.0 == txs && r.1 == order && r.3 == []
    ensures lookup.None? ==> r.2 == Some(FetchFailed(txid))
    ensures lookup.Some? && !saved ==> r.2 == Some(SaveFailed)
    ensures lookup.Some? && saved && AddedConfirmations(lookup.value, tip) > 0 && levelFetch.Unreachable? ==>
              r.2 == Some(SettingsFailed)
    ensures r.2.None? <==>
              lookup.Some? && saved && !(AddedConfirmations(lookup.value, tip) > 0 && levelFetch.Unreachable?)
    // on success the resolved entry goes last, and `NowWatching` is sent iff it is confirmed and the level is not `none`
    ensures r.2.None? ==> r.0 == txs[txid := Resolved(txid, lookup.value, tip)] && r.1 == order + [txid]
    ensures r.2.None? ==>
              r.3 == if AddedConfirmations(lookup.value, tip) > 0 && EffectiveLevel(levelFetch) != NONE
                     then [NowWatching(txid, AddedConfirmations(lookup.value, tip))] else []
  {
    if lookup.None? then (txs, order, Some(FetchFailed(txid)), [])
    else if !saved then (txs, order, Some(SaveFailed), [])
    else
      var tx := Resolved(txid, lookup.value, tip);
      if tx.confirmations > 0 && levelFetch.Unreachable? then (txs, order, Some(SettingsFailed), [])
      else
        (txs[txid := tx], order + [txid], None,
         if tx.confirmations > 0 && EffectiveLevel(levelFetch) != NONE then [NowWatching(txid, tx.confirmations)] else [])
  }

  // ---------------------------------------------------------------------
  // Initial load
  // ---------------------------------------------------------------------

  /** What `fetch('/api/transactions')` and `response.json()` yield. */
  datatype ListFetch =
    | ListUnreachable               // the request or the decoding threw
    | Unauthorized                  // status 401
    | ListNotOk                     // any other non-2xx answer
    | Listed(views: seq<RowView>)   // the rows of a successful answer

  /** A listed row as the hook keeps it, its status text read back. */
  function EntryOf(v: RowView): (tx: WatchedTx)
    ensures tx.id == v.id && StatusName(tx.status) == v.status && WellFormedStatus(tx.status)
    ensures tx.confirmations == v.confirmations && tx.blockHeight == v.blockHeight
  {
    WatchedTx(v.id, ParseStatus(v.status), v.confirmations, v.blockHeight)
  }

  /** `new Map(txs.map(tx => [tx.id, tx]))`: a later row with an id already
      seen overwrites its value but keeps its place in the key order. */
  function Loaded(views: seq<RowView>): (r: (map<string, WatchedTx>, seq<string>))
    ensures Distinct(r.1) && (forall k :: k in r.0 <==> k in r.1)
    ensures forall k | k in r.0 :: r.0[k].id == k
  {
    if views == [] then (map[], [])
    else
      var prev := Loaded(views[..|views| - 1]);
      var v := views[|views| - 1];
      (prev.0[v.id := EntryOf(v)], if v.id in prev.0 then prev.1 else prev.1 + [v.id])
  }

  /** The ids of the listed rows, in the listing's order. */
  function Ids(views: seq<RowView>): (ids: seq<string>)
    ensures |ids| == |views| && forall i :: 0 <= i < |views| ==> ids[i] == views[i].id
  {
    seq(|views|, i requires 0 <= i < |views| => views[i].id)
  }

  /** The watch set holds exactly the listed ids. */
  lemma {:induction false} LoadedKeys(views: seq<RowView>)
    ensures Loaded(views).0.Keys == set v | v in views :: v.id
  {
    if views != [] {
      var init, v := views[..|views| - 1], views[|views| - 1];
      assert views == init + [v];
      LoadedKeys(init);
    }
  }

  /** Each id holds the entry of the last row listed with it. */
  lemma {:induction false} LoadedLast(views: seq<RowView>, i: nat)
    requires i < |views| && forall j :: i < j < |views| ==> views[j].id != views[i].id
    ensures views[i].id in Loaded(views).0 && Loaded(views).0[views[i].id] == EntryOf(views[i])
  {
    if i < |views| - 1 {
      var init := views[..|views| - 1];
      assert init[i] == views[i];
      LoadedLast(init, i);
    }
  }

  predicate DistinctIds(views: seq<RowView>)
  {
    forall i, j :: 0 <= i < j < |views| ==> views[i].id != views[j].id
  }

  lemma IdsSnoc(views: seq<RowView>)
    requires views != []
    ensures Ids(views) == Ids(views[..|views| - 1]) + [views[|views| - 1].id]
  {
  }

  /** A listing without repeated ids is kept in the listing's order. */
  lemma {:induction false} LoadedOrder(views: seq<RowView>)
    requires DistinctIds(views)
    ensures Loaded(views).1 == Ids(views)
  {
    if views != [] {
      var init, v := views[..|views| - 1], views[|views| - 1];
      assert DistinctIds(init) by {
        forall i, j | 0 <= i < j < |init|
          ensures init[i].id != init[j].id
        {
          assert init[i] == views[i] && init[j] == views[j];
        }
      }
      LoadedOrder(init);
      IdsSnoc(views);
      assert v.id !in Ids(init) by {
        forall k | 0 <= k < |init|
          ensures Ids(init)[k] != v.id
        {
          assert init[k] == views[k];
        }
      }
    }
  }

  /** The state of one mounted `useBlockchain(isLoggedIn)`. `txs` is the
      `watchedTxs` map and `order` its key order (a JavaScript `Map` iterates in
      insertion order); `tip` is `stats.blockHeight`. */
  class WatchSet {
    const loggedIn: bool
    var txs: map<string, WatchedTx>
    var order: seq<string>
    var tip: Option<int>
    var error: Option<HookError>

    ghost predicate Valid()
      reads this
    {
      && Distinct(order)
      && (forall k :: k in txs <==> k in order)
      && (forall k :: k in txs ==> txs[k].id == k)
    }

    constructor (loggedIn: bool)
      ensures Valid() && this.loggedIn == loggedIn
      ensures txs == map[] && order == [] && tip == None && error == None
    {
      this.loggedIn := loggedIn;
      txs, order, tip, error := map[], [], None, None;
    }

    /** `Array.from(watchedTxs.values())`: the entries in key order. */
    function Entries(): (es: seq<WatchedTx>)
      requires Valid()
      reads this
      ensures |es| == |order| && forall i :: 0 <= i < |order| ==> es[i] == txs[order[i]]
    {
      seq(|order|, i requires 0 <= i < |order| && order[i] in txs reads this => txs[order[i]])
    }

    /** `setStats({ blockHeight })` on a new tip. */
    method ObserveTip(height: int)
      modifies this
      ensures tip == Some(height)
      ensures txs == old(txs) && order == old(order) && error == old(error)
    {
      tip := Some(height);
    }

    /** `updateWatchedTx`: merges into an existing entry only, so a write for a
        removed id is a no-op rather than a resurrection. */
    method UpdateWatchedTx(txid: string, patch: Patch)
      requires Valid()
      modifies this
      ensures Valid()
      ensures txid in old(txs) ==> txs == old(txs)[txid := Merge(old(txs)[txid], patch)]
      ensures txid !in old(txs) ==> txs == old(txs)
      ensures order == old(order) && tip == old(tip) && error == old(error)
    {
      if txid in txs {
        txs := txs[txid := Merge(txs[txid], patch)];
      }
    }

    /** `new Map(prev).set(tx.id, tx)` for an id not in the map: the entry
        goes last in key order. */
    method Insert(tx: WatchedTx)
      requires Valid() && tx.id !in txs
      modifies this
      ensures Valid()
      ensures txs == old(txs)[tx.id := tx] && order == old(order) + [tx.id]
      ensures tip == old(tip) && error == old(error)
    {
      txs := txs[tx.id := tx];
      order := order + [tx.id];
    }

    /** `newMap.delete(txid)`. */
    method Forget(txid: string)
      requires Valid()
      modifies this
      ensures Valid()
      ensures txs == old(txs) - {txid} && order == Without(old(order), txid)
      ensures tip == old(tip) && error == old(error)
    {
      txs := txs - {txid};
      order := Without(order, txid);
    }

    /** `addTransaction`: reject the id when logged out, malformed or already
        watched; otherwise clear the error and track it. */
    method Add(txid: string, lookup: Option<TxStatus>, saved: bool, levelFetch: LevelFetch)
      returns (sent: seq<Notification>)
      requires Valid()
      modifies this
      ensures Valid() && tip == old(tip)
      ensures !loggedIn ==>
        txs == old(txs) && order == old(order) && error == Some(NotLoggedIn) && sent == []
      ensures loggedIn && !IsTxid(txid) ==>
        txs == old(txs) && order == old(order) && error == Some(InvalidId) && sent == []
      ensures loggedIn && IsTxid(txid) && txid in old(txs) ==>
        txs == old(txs) && order == old(order) && error == Some(AlreadyWatched) && sent == []
      ensures loggedIn && IsTxid(txid) && txid !in old(txs) ==>
        Tracked(old(txs), old(order), old(tip), txid, lookup, saved, levelFetch) == (txs, order, error, sent)
    {
      sent := [];
      if !loggedIn {
        error := Some(NotLoggedIn);
        return;
      }
      error := None;
      if !IsTxid(txid) {
        error := Some(InvalidId);
        return;
      }
      if txid in txs {
        error := Some(AlreadyWatched);
        return;
      }
      sent := Track(txid, lookup, saved, levelFetch);
    }

    /** The accepted part of `addTransaction`: insert a pending entry, look it
        up, save it, and roll the pending entry back when the lookup, the save
        or the settings request that follows a confirmed save fails. */
    method Track(txid: string, lookup: Option<TxStatus>, saved: bool, levelFetch: LevelFetch)
      returns (sent: seq<Notification>)
      requires Valid() && txid !in txs && error == None
      modifies this
      ensures Valid() && tip == old(tip)
      ensures Tracked(old(txs), old(order), old(tip), txid, lookup, saved, levelFetch) == (txs, order, error, sent)
    {
      sent := [];
      ghost var before, beforeTxs := order, txs;
      var pending := WatchedTx(txid, Pending, 0, None);
      Insert(pending);
      WithoutAppended(before, txid);
      DeleteInserted(beforeTxs, txid, pending);
      if lookup.None? {
        error := Some(FetchFailed(txid));
        Forget(txid);
        return;
      }
      var newTx := Resolved(txid, lookup.value, tip);
      if !saved {
        error := Some(SaveFailed);
        Forget(txid);
        return;
      }
      UpdateWatchedTx(txid, Patch(Some(newTx.status), Some(newTx.confirmations), Some(newTx.blockHeight)));
      assert txs == beforeTxs[txid := newTx];
      if newTx.confirmations > 0 {
        if levelFetch.Unreachable? {
          DeleteInserted(beforeTxs, txid, newTx);
          error := Some(SettingsFailed);
          Forget(txid);
          return;
        }
        if EffectiveLevel(levelFetch) != NONE {
          sent := [NowWatching(txid, newTx.confirmations)];
        }
      }
    }

    /** `removeTransaction`: drop the entry at once, and put the whole map back
        as it was when the store's delete fails. */
    method Remove(txid: string, deleted: bool)
      requires Valid()
      modifies this
      ensures Valid() && tip == old(tip)
      ensures !loggedIn ==> txs == old(txs) && order == old(order) && error == old(error)
      ensures loggedIn && deleted ==>
        txs == old(txs) - {txid} && order == Without(old(order), txid) && error == old(error)
      ensures loggedIn && !deleted ==>
        txs == old(txs) && order == old(order) && error == Some(RemoveFailed)
    {
      if !loggedIn {
        return;
      }
      var originalTxs, originalOrder := txs, order;
      Forget(txid);
      if !deleted {
        error := Some(RemoveFailed);
        txs, order := originalTxs, originalOrder;
      }
    }

    /** `loadInitialTransactions`: logged out, the watch set is emptied;
        logged in, it is replaced by the listed rows, left alone on a 401, and
        left alone with an error when the request fails. */
    method Load(fetched: ListFetch)
      requires Valid()
      modifies this
      ensures Valid() && tip == old(tip)
      ensures !loggedIn ==> txs == map[] && order == [] && error == old(error)
      ensures loggedIn && fetched.Unauthorized? ==>
        txs == old(txs) && order == old(order) && error == old(error)
      ensures loggedIn && (fetched.ListUnreachable? || fetched.ListNotOk?) ==>
        txs == old(txs) && order == old(order) && error == Some(LoadFailed)
      ensures loggedIn && fetched.Listed? ==>
        (txs, order) == Loaded(fetched.views) && error == old(error)
    {
      if !loggedIn {
        txs, order := map[], [];
        return;
      }
      match fetched
      case Unauthorized =>
      case ListUnreachable =>
        error := Some(LoadFailed);
      case ListNotOk =>
        error := Some(LoadFailed);
      case Listed(views) =>
        var loaded := Loaded(views);
        txs, order := loaded.0, loaded.1;
    }

    /** One iteration of the pass, for the entry `txid` whose snapshot is `tx`. */
    method Visit(txid: string, tx: WatchedTx, height: int, policy: Policy, lookups: map<string, TxStatus>)
      returns (note: Option<Notification>)
      requires Valid() && txid in txs && txs[txid] == tx
      modifies this
      ensures Valid() && order == old(order) && tip == old(tip)
      ensures var s := Evaluate(tx, height, policy, LookupOf(lookups, txid));
        && txs == old(txs)[txid := s.tx] && note == s.note
        && error == if s.lookupFailed then Some(FetchFailed(txid)) else old(error)
    {
      note := None;
      if tx.status != Confirmed {
        if txid !in lookups {
          error := Some(FetchFailed(txid));
        } else {
          var full := lookups[txid];
          if full.confirmed && Truthy(full.blockHeight) {
            var h := full.blockHeight.value;
            var n := height - h + 1;
            if ShouldNotify(policy, true, n) {
              note := Some(ConfirmedAlert(txid, h));
            }
            UpdateWatchedTx(txid, Patch(Some(Confirmed), Some(n), Some(Some(h))));
          }
        }
      } else if Truthy(tx.blockHeight) {
        var n := height - tx.blockHeight.value + 1;
        if n > tx.confirmations {
          if ShouldNotify(policy, false, n) {
            note := Some(NewConfirmation(txid, n));
          }
          UpdateWatchedTx(txid, Patch(None, Some(n), None));
        }
      }
    }

    /** `checkConfirmations(height)`: one pass over a snapshot of the entries,
        in key order. The pass is abandoned before touching any entry when the
        settings request throws. */
    method Reconcile(height: int, levelFetch: LevelFetch, lookups: map<string, TxStatus>)
      returns (sent: seq<Notification>)
      requires Valid()
      modifies this
      ensures Valid() && order == old(order) && tip == old(tip)
      ensures !loggedIn || levelFetch.Unreachable? ==>
        txs == old(txs) && error == old(error) && sent == []
      ensures loggedIn && !levelFetch.Unreachable? ==>
        var policy := PolicyOf(EffectiveLevel(levelFetch));
        && txs == ReconcileMap(old(txs), height, policy, lookups)
        && sent == Notes(old(order), old(txs), height, policy, lookups)
        && error == PassError(old(order), old(txs), lookups, old(error))
    {
      sent := [];
      if !loggedIn || levelFetch.Unreachable? {
        return;
      }
      ghost var before, keys := txs, order;
      sent := Pass(height, PolicyOf(EffectiveLevel(levelFetch)), lookups);
      VisitedAll(before, keys, height, PolicyOf(EffectiveLevel(levelFetch)), lookups);
    }

    /** The loop of `checkConfirmations`: every entry of the snapshot, in key
        order, under the given policy. */
    method Pass(height: int, policy: Policy, lookups: map<string, TxStatus>)
      returns (sent: seq<Notification>)
      requires Valid()
      modifies this
      ensures Valid() && order == old(order) && tip == old(tip)
      ensures txs == Visited(old(txs), old(order), height, policy, lookups)
      ensures sent == Notes(old(order), old(txs), height, policy, lookups)
      ensures error == PassError(old(order), old(txs), lookups, old(error))
    {
      sent := [];
      var snapshot, keys := txs, order;
      ghost var done: seq<string> := [];
      var i := 0;
      while i < |keys|
        invariant 0 <= i <= |keys| && done == keys[..i]
        invariant Valid() && order == keys && tip == old(tip)
        invariant txs == Visited(snapshot, done, height, policy, lookups)
        invariant sent == Notes(done, snapshot, height, policy, lookups)
        invariant error == PassError(done, snapshot, lookups, old(error))
      {
        var txid := keys[i];
        assert txid !in done;
        sent := Advance(txid, height, policy, lookups, snapshot, done, old(error), sent);
        assert keys[..i + 1] == done + [txid];
        done := done + [txid];
        i := i + 1;
      }
      assert done == keys;
    }

    /** One turn of the loop in `Pass`: visits `txid`, which the turns `done`
        have not reached, and appends its alert to `sent`. */
    method Advance(txid: string, height: int, policy: Policy, lookups: map<string, TxStatus>,
                   snapshot: map<string, WatchedTx>, ghost done: seq<string>,
                   ghost before: Option<HookError>, sent: seq<Notification>)
      returns (sent': seq<Notification>)
      requires Valid() && txid in snapshot && txid !in done
      requires txs == Visited(snapshot, done, height, policy, lookups)
      requires error == PassError(done, snapshot, lookups, before)
      requires sent == Notes(done, snapshot, height, policy, lookups)
      modifies this
      ensures Valid() && order == old(order) && tip == old(tip)
      ensures txs == Visited(snapshot, done + [txid], height, policy, lookups)
      ensures error == PassError(done + [txid], snapshot, lookups, before)
      ensures sent' == Notes(done + [txid], snapshot, height, policy, lookups)
    {
      VisitedAt(snapshot, done, height, policy, lookups, txid);
      ghost var step := Evaluate(snapshot[txid], height, policy, LookupOf(lookups, txid));
      PassStep(snapshot, done, txid, height, policy, lookups, before, step);
      var note := Visit(txid, snapshot[txid], height, policy, lookups);
      sent' := if note.Some? then sent + [note.value] else sent;
    }
  }
}
