/**
 What becomes of notification bits (kernel/notif/notif.c): every time a bit is raised it is
 accounted for, also when code without the lock goes wrong.
 */
module IpcLedger {
  import opened IpcState
  import opened Sequences

  type Account = multiset<(NotifId, nat)>

  /** Bits raised, handed to a taker, gone with their notification, taken or set twice, and overwritten. */
  datatype Ledger = Ledger(raised: Account, taken: Account, lost: Account, twice: Account, dropped: Account)

  /** The bits of one notification, one of each. */
  ghost function Tag(n: NotifId, bits: Bits): Account {
    multiset(set b | b in bits :: (n, b))
  }

  lemma TagIs(n: NotifId, bits: Bits)
    ensures forall k: NotifId, b: nat :: Tag(n, bits)[(k, b)] == if k == n && b in bits then 1 else 0
  {
    var s := set b | b in bits :: (n, b);
    forall k: NotifId, b: nat ensures Tag(n, bits)[(k, b)] == if k == n && b in bits then 1 else 0 {
      assert (k, b) in s <==> k == n && b in bits;
    }
  }

  lemma NoTag(m: Account, n: NotifId, bits: Bits)
    ensures m + Tag(n, bits) == m <==> bits == {}
  {
    TagIs(n, bits);
    if b :| b in bits {
      assert (m + Tag(n, bits))[(n, b)] == m[(n, b)] + 1;
    } else {
      assert Tag(n, bits) == multiset{};
    }
  }

  predicate Pending(notifs: Notifs, n: NotifId, b: nat) {
    n in notifs && b in notifs[n].bits
  }

  /** What was raised, with what was counted twice, is pending, taken, lost or dropped. */
  ghost predicate Balance(notifs: Notifs, l: Ledger) {
    forall n: NotifId, b: nat ::
      l.raised[(n, b)] + l.twice[(n, b)]
      == l.taken[(n, b)] + l.lost[(n, b)] + l.dropped[(n, b)] + if Pending(notifs, n, b) then 1 else 0
  }

  /** The steps under the lock: bits are raised, and taken or lost, each once. */
  lemma BalanceMoves(notifs: Notifs, l: Ledger, n: NotifId, up: Bits, down: Bits, notifs': Notifs)
    requires Balance(notifs, l) && n in notifs
    requires up !! notifs[n].bits && down <= notifs[n].bits + up
    requires forall k, b :: Pending(notifs', k, b) <==>
               if k == n then b in notifs[n].bits + up && b !in down else Pending(notifs, k, b)
    ensures Balance(notifs', l.(raised := l.raised + Tag(n, up), taken := l.taken + Tag(n, down)))
    ensures Balance(notifs', l.(raised := l.raised + Tag(n, up), lost := l.lost + Tag(n, down)))
  {
    hide Tag;
    TagIs(n, up);
    TagIs(n, down);
  }

  lemma BalanceSame(notifs: Notifs, l: Ledger, notifs': Notifs)
    requires Balance(notifs, l)
    requires notifs'.Keys == notifs.Keys && forall n :: n in notifs ==> notifs'[n].bits == notifs[n].bits
    ensures Balance(notifs', l)
  {
    assert forall n: NotifId, b: nat :: Pending(notifs', n, b) == Pending(notifs, n, b);
  }

  lemma BalanceNew(notifs: Notifs, l: Ledger, n: NotifId)
    requires Balance(notifs, l) && n !in notifs
    ensures Balance(notifs[n := NotifObj({}, None)], l)
  {
    assert forall k: NotifId, b: nat :: Pending(notifs[n := NotifObj({}, None)], k, b) == Pending(notifs, k, b);
  }

  // ------------------------------------------------------------------- polls

  /** The store of a poll that read `matched` and loaded `loaded`, when the bits are `now`. */
  ghost function Stored(l: Ledger, n: NotifId, now: Bits, matched: Bits, loaded: Bits): Ledger {
    l.(taken := l.taken + Tag(n, matched),
    twice := l.twice + Tag(n, (matched + loaded) - now),
    dropped := l.dropped + Tag(n, now - matched - loaded))
  }

  lemma StoreBalance(notifs: Notifs, l: Ledger, n: NotifId, matched: Bits, loaded: Bits)
    requires Balance(notifs, l) && n in notifs
    ensures Balance(notifs[n := notifs[n].(bits := loaded - matched)], Stored(l, n, notifs[n].bits, matched, loaded))
  {
    hide Tag;
    var now, notifs' := notifs[n].bits, notifs[n := notifs[n].(bits := loaded - matched)];
    TagIs(n, matched);
    TagIs(n, (matched + loaded) - now);
    TagIs(n, now - matched - loaded);
    assert forall k: NotifId, b: nat ::
        Pending(notifs', k, b) == if k == n then b in loaded && b !in matched else Pending(notifs, k, b);
  }

  /** The store into a notification that is gone: what was matched is taken a second time. */
  lemma DeadStore(notifs: Notifs, l: Ledger, n: NotifId, matched: Bits)
    requires Balance(notifs, l)
    ensures Balance(notifs, l.(taken := l.taken + Tag(n, matched), twice := l.twice + Tag(n, matched)))
  {
    hide Tag;
    TagIs(n, matched);
  }

  /** No bit is counted twice or dropped if and only if the bits are still those the poll has seen. */
  lemma StoreExact(l: Ledger, n: NotifId, now: Bits, matched: Bits, loaded: Bits)
    ensures Stored(l, n, now, matched, loaded) == l.(taken := l.taken + Tag(n, matched)) <==> now == matched + loaded
  {
    NoTag(l.twice, n, (matched + loaded) - now);
    NoTag(l.dropped, n, now - matched - loaded);
  }
}
