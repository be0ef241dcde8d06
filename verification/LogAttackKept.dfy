/** What the attack logger guarantees over every properly bracketed run, the contents of its log included. */
module LogAttackKept {
  import opened LogAttack
  import opened LogAttackRuns

  // ---------------------------------------------------------------- the entries of the log

  /** What was made for an attack stays in use until the attack is logged. */
  predicate ClosedOk(x: nat, inUse: set<nat>, live: set<nat>, owner: map<nat, nat>, nextAttack: nat) {
    x in owner ==> owner[x] < nextAttack && (owner[x] in live ==> x in inUse)
  }

  /** An entry holds exactly what was made for its attack. */
  predicate ContentsOk(i: int, x: nat, logged: seq<Entry>, owner: map<nat, nat>) {
    0 <= i < |logged| ==> (x in logged[i].ctxs <==> x in owner && owner[x] == logged[i].attack)
  }

  /** Each sub-context stands once in an entry, with its flag, and has been freed. */
  predicate EntryWhole(e: Entry, freed: seq<nat>) {
    |e.active| == |e.ctxs| && Ascending(e.ctxs) && forall j :: 0 <= j < |e.ctxs| ==> e.ctxs[j] in freed
  }

  ghost predicate Archive(inUse: set<nat>, live: set<nat>, owner: map<nat, nat>, nextAttack: nat,
                          logged: seq<Entry>, freed: seq<nat>) {
    && (forall x: nat :: ClosedOk(x, inUse, live, owner, nextAttack))
    && (forall i: int, x: nat :: ContentsOk(i, x, logged, owner))
    && (forall i :: 0 <= i < |logged| ==> EntryWhole(logged[i], freed))
  }

  ghost predicate WorldArchive(w: World) {
    Archive(w.t.subs.Keys, w.t.attacks.Keys, w.owner, w.t.nextAttack, w.t.logged, w.t.freed)
  }

  lemma ArchiveAdds(inUse: set<nat>, live: set<nat>, owner: map<nat, nat>, nextAttack: nat,
                    logged: seq<Entry>, freed: seq<nat>, x: nat, a: nat)
    requires Archive(inUse, live, owner, nextAttack, logged, freed) && LoggedInv(logged, live, nextAttack)
    requires x !in owner && a in live
    ensures Archive(inUse + {x}, live, owner[x := a], nextAttack, logged, freed)
  {
    var owner' := owner[x := a];
    assert AttackKnown(a, logged, live, nextAttack);
    forall y: nat ensures ClosedOk(y, inUse + {x}, live, owner', nextAttack) {
      assert ClosedOk(y, inUse, live, owner, nextAttack);
    }
    forall i: int, y: nat ensures ContentsOk(i, y, logged, owner') {
      assert ContentsOk(i, y, logged, owner);
    }
  }

  lemma ArchiveBegins(inUse: set<nat>, live: set<nat>, owner: map<nat, nat>, a: nat,
                      logged: seq<Entry>, freed: seq<nat>)
    requires Archive(inUse, live, owner, a, logged, freed)
    ensures Archive(inUse, live + {a}, owner, a + 1, logged, freed)
  {
    var next := a + 1;
    forall y: nat ensures ClosedOk(y, inUse, live + {a}, owner, next) {
      assert ClosedOk(y, inUse, live, owner, a);
    }
  }

  lemma ArchiveUses(inUse: set<nat>, live: set<nat>, owner: map<nat, nat>, nextAttack: nat,
                    logged: seq<Entry>, freed: seq<nat>, x: nat)
    requires Archive(inUse, live, owner, nextAttack, logged, freed)
    ensures Archive(inUse + {x}, live, owner, nextAttack, logged, freed)
  {
    forall y: nat ensures ClosedOk(y, inUse + {x}, live, owner, nextAttack) {
      assert ClosedOk(y, inUse, live, owner, nextAttack);
    }
  }

  lemma MoreFreed(logged: seq<Entry>, freed: seq<nat>, more: seq<nat>)
    requires forall i :: 0 <= i < |logged| ==> EntryWhole(logged[i], freed)
    ensures forall i :: 0 <= i < |logged| ==> EntryWhole(logged[i], freed + more)
  {
    assert forall y :: y in freed ==> y in freed + more;
  }

  lemma ArchiveFrees(inUse: set<nat>, live: set<nat>, owner: map<nat, nat>, nextAttack: nat,
                     logged: seq<Entry>, freed: seq<nat>, x: nat)
    requires Archive(inUse, live, owner, nextAttack, logged, freed) && x !in owner
    ensures Archive(inUse - {x}, live, owner, nextAttack, logged, freed + [x])
  {
    MoreFreed(logged, freed, [x]);
    forall y: nat ensures ClosedOk(y, inUse - {x}, live, owner, nextAttack) {
      assert ClosedOk(y, inUse, live, owner, nextAttack);
    }
  }

  lemma ArchiveLogs(inUse: set<nat>, live: set<nat>, owner: map<nat, nat>, nextAttack: nat,
                    logged: seq<Entry>, freed: seq<nat>, e: Entry)
    requires Archive(inUse, live, owner, nextAttack, logged, freed)
    requires |e.active| == |e.ctxs| && Ascending(e.ctxs)
    requires forall x :: x in e.ctxs <==> x in owner && owner[x] == e.attack
    ensures Archive(inUse - SetOf(e.ctxs), live - {e.attack}, owner, nextAttack, logged + [e], freed + e.ctxs)
  {
    var logged' := logged + [e];
    MoreFreed(logged, freed, e.ctxs);
    forall y: nat ensures ClosedOk(y, inUse - SetOf(e.ctxs), live - {e.attack}, owner, nextAttack) {
      assert ClosedOk(y, inUse, live, owner, nextAttack);
    }
    forall i: int, y: nat ensures ContentsOk(i, y, logged', owner) {
      assert ContentsOk(i, y, logged, owner);
    }
  }

  /** The list of a live attack holds everything that was made for it. */
  lemma ListIsAll(w: World, a: nat, x: nat)
    requires Inv(w) && WorldArchive(w) && a in w.t.attacks
    ensures x in w.t.attacks[a] <==> x in w.owner && w.owner[x] == a
    ensures Ascending(w.t.attacks[a])
  {
    assert AttackOk(a, w.t.attacks, w.t.subs.Keys, w.owner, w.t.nextAttack);
    assert ClosedOk(x, w.t.subs.Keys, w.t.attacks.Keys, w.owner, w.t.nextAttack);
    assert OwnerOk(x, w.t.subs.Keys, w.t.attacks, w.owner, w.t.nextSub);
  }

  // ---------------------------------------------------------------- every event keeps the entries

  /** A sub-context made for a live attack. */
  lemma JoinArchive(w: World, w': World, a: nat)
    requires Inv(w) && WorldArchive(w) && a in w.t.attacks
    requires w'.t.subs.Keys == w.t.subs.Keys + {w.t.nextSub} && w'.t.attacks.Keys == w.t.attacks.Keys
    requires w'.owner == w.owner[w.t.nextSub := a]
    requires w'.t.nextAttack == w.t.nextAttack && w'.t.logged == w.t.logged && w'.t.freed == w.t.freed
    ensures WorldArchive(w')
  {
    NextSubFresh(w.t, w.owner);
    ArchiveAdds(w.t.subs.Keys, w.t.attacks.Keys, w.owner, w.t.nextAttack, w.t.logged, w.t.freed, w.t.nextSub, a);
  }

  lemma CreateArchive(w: World, e: Event)
    requires Inv(w) && WorldArchive(w) && Bracketed(w.env, e)
    requires e.DnsQueryCreated? || e.Download? || e.Bind? || e.ConnectRequest? || e.Shellcode?
    ensures WorldArchive(Step(w, e))
  {
    var w' := Step(w, e);
    assert w'.t.subs.Keys == w.t.subs.Keys + {w.t.nextSub};
    if Handling(w.env) {
      CurrentAlive(w);
      assert w'.t.attacks.Keys == w.t.attacks.Keys;
      JoinArchive(w, w', w.t.currentAttack.value);
    } else {
      ArchiveUses(w.t.subs.Keys, w.t.attacks.Keys, w.owner, w.t.nextAttack, w.t.logged, w.t.freed, w.t.nextSub);
    }
  }

  lemma AcceptArchive(w: World, parent: nat, socket: nat)
    requires Inv(w) && WorldArchive(w) && Bracketed(w.env, Accept(parent, socket))
    ensures WorldArchive(Step(w, Accept(parent, socket)))
  {
    var t, w' := w.t, Step(w, Accept(parent, socket));
    assert KeyOk(SocketKey(parent), t.ctxs, w.env.alive, t.subs, w.owner);
    var y := t.ctxs[SocketKey(parent)];
    assert w'.t.subs.Keys == t.subs.Keys + {t.nextSub};
    if y in t.attackOf {
      assert EntryOk(y, t.attackOf, t.subs, w.owner) && OwnerOk(y, t.subs.Keys, t.attacks, w.owner, t.nextSub);
      assert w'.t.attacks.Keys == t.attacks.Keys;
      JoinArchive(w, w', t.attackOf[y]);
    } else {
      assert w'.t.attacks.Keys == t.attacks.Keys + {t.nextAttack};
      BeginArchive(w, w');
    }
  }

  /** An attack begins, with a sub-context made for it. */
  lemma BeginArchive(w: World, w': World)
    requires Inv(w) && WorldArchive(w)
    requires w'.t.subs.Keys == w.t.subs.Keys + {w.t.nextSub} && w'.t.attacks.Keys == w.t.attacks.Keys + {w.t.nextAttack}
    requires w'.owner == w.owner[w.t.nextSub := w.t.nextAttack]
    requires w'.t.nextAttack == w.t.nextAttack + 1 && w'.t.logged == w.t.logged && w'.t.freed == w.t.freed
    ensures WorldArchive(w')
  {
    var t, a, next := w.t, w.t.nextAttack, w'.t.nextAttack;
    NextSubFresh(t, w.owner);
    ArchiveBegins(t.subs.Keys, t.attacks.Keys, w.owner, a, t.logged, t.freed);
    BeginLogged(t.logged, t.attacks.Keys, a);
    ArchiveAdds(t.subs.Keys, t.attacks.Keys + {a}, w.owner, next, t.logged, t.freed, t.nextSub, a);
  }

  /** The end of a key. The attack that may end with it is logged with everything that was made for it. */
  lemma RetireArchive(w: World, k: Key)
    requires Inv(w) && WorldArchive(w) && k in w.t.ctxs
    ensures var t' := Retire(w.t, k);
            Archive(t'.subs.Keys, t'.attacks.Keys, w.owner, t'.nextAttack, t'.logged, t'.freed)
    ensures Retire(w.t, k).nextSub == w.t.nextSub
  {
    var t, x, t' := w.t, w.t.ctxs[k], Retire(w.t, k);
    assert KeyOk(k, t.ctxs, w.env.alive, t.subs, w.owner);
    RetireCases(t, k);
    assert EntryOk(x, t.attackOf, t.subs, w.owner) && OwnerOk(x, t.subs.Keys, t.attacks, w.owner, t.nextSub);
    if x !in t.attackOf {
      assert t'.subs.Keys == t.subs.Keys - {x};
      ArchiveFrees(t.subs.Keys, t.attacks.Keys, w.owner, t.nextAttack, t.logged, t.freed, x);
    } else if OtherActive(t, ListOf(t, t.attackOf[x]), x) {
      assert t'.subs.Keys == t.subs.Keys;
    } else {
      RetireLogs(w, k);
    }
  }

  lemma RetireLogs(w: World, k: Key)
    requires Inv(w) && WorldArchive(w) && k in w.t.ctxs && w.t.ctxs[k] in w.t.subs
    requires w.t.ctxs[k] in w.t.attackOf && w.t.attackOf[w.t.ctxs[k]] in w.t.attacks
    ensures var t' := EndLast(w.t, k, w.t.ctxs[k], w.t.attackOf[w.t.ctxs[k]]);
            Archive(t'.subs.Keys, t'.attacks.Keys, w.owner, t'.nextAttack, t'.logged, t'.freed)
  {
    var t, x := w.t, w.t.ctxs[k];
    var a := t.attackOf[x];
    var list, t' := t.attacks[a], EndLast(t, k, x, a);
    forall y ensures y in list <==> y in w.owner && w.owner[y] == a {
      ListIsAll(w, a, y);
    }
    ListIsAll(w, a, x);
    assert t'.subs.Keys == t.subs.Keys - SetOf(list) && t'.attacks.Keys == t.attacks.Keys - {a};
    ArchiveLogs(t.subs.Keys, t.attacks.Keys, w.owner, t.nextAttack, t.logged, t.freed,
                Entry(a, list, ActiveFlags(Deactivated(t.subs, x), list)));
  }

  lemma DestroyArchive(w: World, e: Event)
    requires Inv(w) && WorldArchive(w) && Bracketed(w.env, e)
    requires e.DnsQueryDestroyed? || e.DownloadDestroyed? || e.Close?
    ensures WorldArchive(Step(w, e))
  {
    var k := match e
      case DnsQueryDestroyed(query) => QueryKey(query)
      case DownloadDestroyed(download) => DownloadKey(download)
      case Close(socket) => SocketKey(socket);
    ghost var t' := Retire(w.t, k);
    assert Step(w, e).t == t';
    if k in w.t.ctxs {
      RetireArchive(w, k);
      assert Step(w, e).owner == w.owner;
    } else {
      assert t' == w.t && Step(w, e).owner == w.owner;
    }
  }

  lemma StepArchive(w: World, e: Event)
    requires Inv(w) && WorldArchive(w) && Bracketed(w.env, e)
    ensures WorldArchive(Step(w, e))
  {
    match e
    case Accept(parent, socket) => AcceptArchive(w, parent, socket);
    case Shellcode => CreateArchive(w, e);
    case DnsQueryCreated(_) => CreateArchive(w, e);
    case Download(_) => CreateArchive(w, e);
    case Bind(_) => CreateArchive(w, e);
    case ConnectRequest(_) => CreateArchive(w, e);
    case DnsQueryDestroyed(_) => DestroyArchive(w, e);
    case DownloadDestroyed(_) => DestroyArchive(w, e);
    case Close(_) => DestroyArchive(w, e);
    case ShellcodeEnd => assert Step(w, e).t.subs.Keys == w.t.subs.Keys;
    case _ =>
  }

  lemma {:induction false} RunArchive(w: World, events: seq<Event>)
    requires Inv(w) && WorldArchive(w) && AllBracketed(w.env, events)
    ensures WorldArchive(Run(w, events))
    decreases |events|
  {
    if events != [] {
      StepInv(w, events[0]);
      StepArchive(w, events[0]);
      RunArchive(Step(w, events[0]), events[1..]);
    }
  }

  // ---------------------------------------------------------------- what is kept, and what is logged

  /** What the logger guarantees at every point of a run. owner: the attack that each sub-context was created for. */
  ghost predicate Kept(t: Tracker, env: Env, owner: map<nat, nat>) {
    // the entries of m_AttackCtxs are active and belong to live attacks
    && (forall x :: x in t.attackOf ==>
          Active(t.subs, x) && t.attackOf[x] in t.attacks && x in t.attacks[t.attackOf[x]])
    // what is active in a live attack, but for a shellcode, has its entry
    && (forall a, i :: a in t.attacks && 0 <= i < |t.attacks[a]| && Tracked(t.subs, t.attacks[a][i]) ==>
          t.attacks[a][i] in t.attackOf && t.attackOf[t.attacks[a][i]] == a)
    // the living sockets, queries and downloads are the keys, and the attacks are counted
    && (forall k :: k in t.ctxs <==> k in env.alive)
    && t.count == |t.attacks|
    // an attack is alive as long as something in it is tracked, and otherwise was logged, once, with nothing active
    && (forall a: nat :: a < t.nextAttack ==> (a in t.attacks <==> !WasLogged(t.logged, a)))
    && (forall a :: a in t.attacks ==> HasEntry(t.attackOf, a))
    && LoggedOnce(t.logged)
    // the list of a live attack and the entry of a logged one hold exactly what was created for that attack
    && (forall a, x :: a in t.attacks ==> (x in t.attacks[a] <==> x in owner && owner[x] == a))
    && (forall i, x :: 0 <= i < |t.logged| ==>
          (x in t.logged[i].ctxs <==> x in owner && owner[x] == t.logged[i].attack))
    && (forall i :: 0 <= i < |t.logged| ==> EntryWhole(t.logged[i], t.freed))
    // every sub-context was freed once, or is in use
    && (forall x: nat :: x < t.nextSub ==> (x in t.subs <==> x !in t.freed))
    && NoneTwice(t.freed)
  }

  lemma WholeKept(w: World)
    requires Inv(w) && WorldArchive(w)
    ensures forall a, x :: a in w.t.attacks ==> (x in w.t.attacks[a] <==> x in w.owner && w.owner[x] == a)
    ensures forall i, x :: 0 <= i < |w.t.logged| ==>
              (x in w.t.logged[i].ctxs <==> x in w.owner && w.owner[x] == w.t.logged[i].attack)
  {
    var t := w.t;
    forall a, x ensures a in t.attacks ==> (x in t.attacks[a] <==> x in w.owner && w.owner[x] == a) {
      if a in t.attacks {
        ListIsAll(w, a, x);
      }
    }
    forall i, x ensures 0 <= i < |t.logged| ==>
      (x in t.logged[i].ctxs <==> x in w.owner && w.owner[x] == t.logged[i].attack)
    {
      assert ContentsOk(i, x, t.logged, w.owner);
    }
  }

  lemma InvKept(w: World)
    requires Inv(w) && WorldArchive(w)
    ensures Kept(w.t, w.env, w.owner)
  {
    var t := w.t;
    WholeKept(w);
    forall x | x in t.attackOf
      ensures Active(t.subs, x) && t.attackOf[x] in t.attacks && x in t.attacks[t.attackOf[x]]
    {
      assert EntryOk(x, t.attackOf, t.subs, w.owner) && OwnerOk(x, t.subs.Keys, t.attacks, w.owner, t.nextSub);
    }
    forall a, i | a in t.attacks && 0 <= i < |t.attacks[a]| && Tracked(t.subs, t.attacks[a][i])
      ensures t.attacks[a][i] in t.attackOf && t.attackOf[t.attacks[a][i]] == a
    {
      assert AttackOk(a, t.attacks, t.subs.Keys, w.owner, t.nextAttack);
      assert EntryOk(t.attacks[a][i], t.attackOf, t.subs, w.owner);
    }
    forall k ensures k in t.ctxs <==> k in w.env.alive {
      assert KeyOk(k, t.ctxs, w.env.alive, t.subs, w.owner);
    }
    forall a: nat ensures (a in t.attacks ==> HasEntry(t.attackOf, a))
                       && (a < t.nextAttack ==> (a in t.attacks <==> !WasLogged(t.logged, a))) {
      assert LiveOk(a, t.attackOf, t.attacks.Keys) && AttackKnown(a, t.logged, t.attacks.Keys, t.nextAttack);
    }
    forall x: nat ensures x < t.nextSub ==> (x in t.subs <==> x !in t.freed) {
      assert SubOk(x, t.subs.Keys, t.freed, t.nextSub);
    }
  }

  /** Over every properly bracketed run no assertion fails, and the logger's fields are in order at its end. */
  lemma AttacksKept(events: seq<Event>)
    requires AllBracketed(Start.env, events)
    ensures NeverFails(Start, events)
    ensures var w := Run(Start, events); Kept(w.t, w.env, w.owner)
  {
    StartInv();
    RunInv(Start, events);
    RunArchive(Start, events);
    InvKept(Run(Start, events));
  }

  /** When nothing is left alive, every attack was logged and every sub-context freed. */
  lemma NothingLeft(events: seq<Event>)
    requires AllBracketed(Start.env, events) && Run(Start, events).env.alive == map[]
    ensures var t := Run(Start, events).t;
            && t.attacks == map[] && t.count == 0 && t.subs == map[] && t.attackOf == map[]
            && (forall a: nat :: a < t.nextAttack ==> WasLogged(t.logged, a))
            && (forall x: nat :: x < t.nextSub ==> x in t.freed)
  {
    StartInv();
    RunInv(Start, events);
    RunArchive(Start, events);
    var w := Run(Start, events);
    var t := w.t;
    InvKept(w);
    forall x ensures x !in t.attackOf && x !in t.subs {
      if x in t.subs || x in t.attackOf {
        LeftOver(w, x);
      }
    }
    assert t.attacks.Keys == {};
  }

  /** Whatever is in use leads to something alive. */
  lemma LeftOver(w: World, x: nat)
    requires Inv(w) && (x in w.t.subs || x in w.t.attackOf)
    ensures w.env.alive != map[]
  {
    var t := w.t;
    var y := x;
    assert EntryOk(x, t.attackOf, t.subs, w.owner);
    if x !in t.attackOf && x in w.owner {
      assert OwnerOk(x, t.subs.Keys, t.attacks, w.owner, t.nextSub);
      assert LiveOk(w.owner[x], t.attackOf, t.attacks.Keys);
      y :| y in t.attackOf && t.attackOf[y] == w.owner[x];
      assert EntryOk(y, t.attackOf, t.subs, w.owner);
    }
    assert HeldOk(y, t.ctxs, t.subs, w.owner);
    var k :| k in t.ctxs && t.ctxs[k] == y;
    assert KeyOk(k, t.ctxs, w.env.alive, t.subs, w.owner);
  }
}
