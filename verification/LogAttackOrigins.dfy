/** Which attack everything belongs to, told from the events alone. */
module LogAttackOrigins {
  import opened LogAttack
  import opened LogAttackRuns
  import opened LogAttackKept
  import opened Options

  // ---------------------------------------------------------------- the history of events

  function EnvOf(h: seq<Event>): Env {
    if h == [] then Start.env else Next(EnvOf(h[..|h| - 1]), h[|h| - 1])
  }

  /** What an event brings into being, but for shellcodes. */
  function MadeKey(e: Event): Option<Key> {
    match e
    case DnsQueryCreated(query) => Some(QueryKey(query))
    case Download(download) => Some(DownloadKey(download))
    case Accept(_, socket) => Some(SocketKey(socket))
    case Bind(socket) => Some(SocketKey(socket))
    case ConnectRequest(socket) => Some(SocketKey(socket))
    case _ => None
  }

  /** How many attacks have begun: one with every connection whose listener belongs to none. */
  function Begun(h: seq<Event>): nat {
    if h == [] then 0
    else
      var before, e := h[..|h| - 1], h[|h| - 1];
      Begun(before) + if e.Accept? && Origin(before, SocketKey(e.parent)).None? then 1 else 0
  }

  /**
   * The attack, numbered in the order in which they began, that the newest bearer of a key belongs to: that of its
   * listener, a new one, or that in whose bracket it was made.
   */
  function Origin(h: seq<Event>, k: Key): Option<nat> {
    if h == [] then None
    else
      var before, e := h[..|h| - 1], h[|h| - 1];
      if MadeKey(e) != Some(k) then Origin(before, k)
      else if e.Accept? then
        var known := Origin(before, SocketKey(e.parent));
        if known.Some? then known else Some(Begun(before))
      else if Handling(EnvOf(before)) then Origin(before, Current(EnvOf(before)))
      else None
  }

  /** The attack that is being handled. */
  function Handled(h: seq<Event>): Option<nat> {
    if Handling(EnvOf(h)) then Origin(h, Current(EnvOf(h))) else None
  }

  function Made(h: seq<Event>): nat {
    if h == [] then 0
    else
      var e := h[|h| - 1];
      Made(h[..|h| - 1]) + if MadeKey(e).Some? || e.Shellcode? then 1 else 0
  }

  /** The attack that each sub-context was made for; sub-contexts are numbered in the order in which they were made. */
  function Owners(h: seq<Event>): map<nat, nat> {
    if h == [] then map[]
    else
      var before, e := h[..|h| - 1], h[|h| - 1];
      if MadeKey(e).None? && !e.Shellcode? then Owners(before)
      else
        var a := if e.Accept? then Origin(h, SocketKey(e.socket)) else Handled(before);
        if a.Some? then Owners(before)[Made(before) := a.value] else Owners(before)
  }

  // ---------------------------------------------------------------- the logger keeps to it

  predicate KeyTold(t: Tracker, h: seq<Event>, k: Key) {
    k in t.ctxs ==> AttackOf(t, t.ctxs[k]) == Origin(h, k)
  }

  ghost predicate Told(w: World, h: seq<Event>) {
    && w.env == EnvOf(h) && w.t.nextSub == Made(h) && w.t.nextAttack == Begun(h) && w.owner == Owners(h)
    && forall k :: KeyTold(w.t, h, k)
  }

  lemma HandledTold(w: World, h: seq<Event>)
    requires Inv(w) && Told(w, h)
    ensures w.t.currentAttack == Handled(h)
  {
    if Handling(w.env) {
      assert KeyTold(w.t, h, Current(w.env));
    }
  }

  /** One more event leaves the origin of all keys as it is, but for the one that it makes. */
  lemma OneMore(h: seq<Event>, e: Event, h': seq<Event>, k: Key)
    requires h' == h + [e]
    ensures MadeKey(e) != Some(k) ==> Origin(h', k) == Origin(h, k)
    ensures EnvOf(h') == Next(EnvOf(h), e)
  {
    assert h'[..|h'| - 1] == h;
  }

  /** What was there before keeps its attack. */
  lemma OthersTold(t: Tracker, t': Tracker, h: seq<Event>, e: Event, h': seq<Event>, k: Key)
    requires KeyTold(t, h, k) && h' == h + [e] && MadeKey(e) != Some(k)
    requires k in t'.ctxs ==> k in t.ctxs && t'.ctxs[k] == t.ctxs[k]
    requires k in t'.ctxs ==> AttackOf(t', t.ctxs[k]) == AttackOf(t, t.ctxs[k])
    ensures KeyTold(t', h', k)
  {
    OneMore(h, e, h', k);
  }

  lemma Unused(w: World, k: Key)
    requires Inv(w)
    ensures w.t.nextSub !in w.t.attackOf
    ensures k in w.t.ctxs ==> w.t.ctxs[k] < w.t.nextSub
  {
    var x := w.t.nextSub;
    assert EntryOk(x, w.t.attackOf, w.t.subs, w.owner) && SubOk(x, w.t.subs.Keys, w.t.freed, w.t.nextSub);
    if k in w.t.ctxs {
      assert KeyOk(k, w.t.ctxs, w.env.alive, w.t.subs, w.owner);
      assert SubOk(w.t.ctxs[k], w.t.subs.Keys, w.t.freed, w.t.nextSub);
    }
  }

  /** A new sub-context under a key of its own. */
  lemma AddedTold(t: Tracker, h: seq<Event>, e: Event, h': seq<Event>, kind: Kind, made: Key, k: Key)
    requires KeyTold(t, h, k) && h' == h + [e] && kind != ShellcodeCtx && t.currentAttack == Handled(h)
    requires MadeKey(e) == Some(made) && !e.Accept?
    requires t.nextSub !in t.attackOf && (k in t.ctxs ==> t.ctxs[k] < t.nextSub)
    ensures KeyTold(AddKeyed(t, made, kind, t.currentAttack), h', k)
  {
    var t' := AddKeyed(t, made, kind, t.currentAttack);
    assert h'[..|h'| - 1] == h;
    if k != made {
      OthersTold(t, t', h, e, h', k);
    }
  }

  lemma CreatedOwner(w: World, h: seq<Event>, e: Event, h': seq<Event>, kind: Kind)
    requires w.t.nextSub == Made(h) && w.owner == Owners(h) && w.t.currentAttack == Handled(h) && h' == h + [e]
    requires MadeKey(e).Some? && !e.Accept?
    ensures OwnerAfter(w, AddKeyed(w.t, MadeKey(e).value, kind, w.t.currentAttack)) == Owners(h')
    ensures Made(h') == Made(h) + 1 && Begun(h') == Begun(h)
  {
    assert h'[..|h'| - 1] == h;
  }

  /** What is made in a bracket belongs to the attack that is handled there. */
  lemma CreateTold(w: World, h: seq<Event>, e: Event, h': seq<Event>)
    requires Inv(w) && Told(w, h) && Bracketed(w.env, e) && h' == h + [e]
    requires e.DnsQueryCreated? || e.Download? || e.Bind? || e.ConnectRequest?
    ensures Told(Step(w, e), h')
  {
    var made, t' := MadeKey(e).value, After(w.t, e);
    OneMore(h, e, h', made);
    HandledTold(w, h);
    var kind := if e.DnsQueryCreated? then DNSCtx else if e.Download? then DownloadCtx else SocketCtx;
    assert t' == AddKeyed(w.t, made, kind, w.t.currentAttack);
    CreatedOwner(w, h, e, h', kind);
    forall k ensures KeyTold(t', h', k) {
      Unused(w, k);
      assert KeyTold(w.t, h, k);
      AddedTold(w.t, h, e, h', kind, made, k);
    }
  }

  lemma ShellcodeTold(w: World, h: seq<Event>, h': seq<Event>)
    requires Inv(w) && Told(w, h) && Bracketed(w.env, Shellcode) && h' == h + [Shellcode]
    ensures Told(Step(w, Shellcode), h')
  {
    var t' := After(w.t, Shellcode);
    assert h'[..|h'| - 1] == h;
    HandledTold(w, h);
    CurrentAlive(w);
    forall k ensures KeyTold(t', h', k) {
      assert KeyTold(w.t, h, k);
      OthersTold(w.t, t', h, Shellcode, h', k);
    }
  }

  /** An accepted connection belongs to its listener's attack, or to a new one if that has none. */
  lemma AcceptTold(w: World, h: seq<Event>, e: Event, h': seq<Event>)
    requires Inv(w) && Told(w, h) && Bracketed(w.env, e) && h' == h + [e] && e.Accept?
    ensures Told(Step(w, e), h')
  {
    var t' := After(w.t, e);
    assert h'[..|h'| - 1] == h;
    assert KeyOk(SocketKey(e.parent), w.t.ctxs, w.env.alive, w.t.subs, w.owner);
    assert KeyTold(w.t, h, SocketKey(e.parent));
    forall k ensures KeyTold(t', h', k) {
      Unused(w, k);
      if k != SocketKey(e.socket) {
        assert KeyTold(w.t, h, k);
        OthersTold(w.t, t', h, e, h', k);
      }
    }
  }

  /** The closure of an attack leaves the maps alone. */
  lemma ClosureKeeps(t: Tracker, a: nat)
    ensures var t' := AttemptClosure(t, a);
            && t'.ctxs == t.ctxs && t'.attackOf == t.attackOf
            && t'.nextSub == t.nextSub && t'.nextAttack == t.nextAttack && t'.currentAttack == t.currentAttack
  {
  }

  lemma RetireMaps(t: Tracker, k: Key)
    ensures var t' := Retire(t, k);
            && t'.nextSub == t.nextSub && t'.nextAttack == t.nextAttack && t'.currentAttack == t.currentAttack
            && t'.ctxs == t.ctxs - {k}
            && t'.attackOf == if k in t.ctxs then t.attackOf - {t.ctxs[k]} else t.attackOf
  {
    if k in t.ctxs {
      var x := t.ctxs[k];
      var t1 := SetInactive(t.(ctxs := t.ctxs - {k}), x);
      if x in t.attackOf {
        ClosureKeeps(t1, t.attackOf[x]);
      }
    } else {
      assert t.ctxs - {k} == t.ctxs;
    }
  }

  lemma RetiredTold(t: Tracker, h: seq<Event>, e: Event, h': seq<Event>, gone: Key, k: Key)
    requires KeyTold(t, h, k) && SameKey(k, gone, t.ctxs) && h' == h + [e] && MadeKey(e).None?
    ensures KeyTold(Retire(t, gone), h', k)
  {
    RetireMaps(t, gone);
    if k != gone {
      OthersTold(t, Retire(t, gone), h, e, h', k);
    }
  }

  lemma DestroyTold(w: World, h: seq<Event>, e: Event, h': seq<Event>)
    requires Inv(w) && Told(w, h) && Bracketed(w.env, e) && h' == h + [e]
    requires e.DnsQueryDestroyed? || e.DownloadDestroyed? || e.Close?
    ensures Told(Step(w, e), h')
  {
    var gone := match e
      case DnsQueryDestroyed(query) => QueryKey(query)
      case DownloadDestroyed(download) => DownloadKey(download)
      case Close(socket) => SocketKey(socket);
    var t' := After(w.t, e);
    assert h'[..|h'| - 1] == h;
    assert t' == Retire(w.t, gone);
    RetireMaps(w.t, gone);
    forall k ensures KeyTold(t', h', k) {
      assert KeyTold(w.t, h, k) && SameKey(k, gone, w.t.ctxs);
      RetiredTold(w.t, h, e, h', gone, k);
    }
  }

  lemma OtherTold(w: World, h: seq<Event>, e: Event, h': seq<Event>)
    requires Inv(w) && Told(w, h) && Bracketed(w.env, e) && h' == h + [e] && MadeKey(e).None? && !e.Shellcode?
    requires !e.DnsQueryDestroyed? && !e.DownloadDestroyed? && !e.Close?
    ensures Told(Step(w, e), h')
  {
    var t' := After(w.t, e);
    assert h'[..|h'| - 1] == h;
    forall k ensures KeyTold(t', h', k) {
      assert KeyTold(w.t, h, k);
      OthersTold(w.t, t', h, e, h', k);
    }
  }

  lemma StepTold(w: World, h: seq<Event>, e: Event, h': seq<Event>)
    requires Inv(w) && Told(w, h) && Bracketed(w.env, e) && h' == h + [e]
    ensures Told(Step(w, e), h')
  {
    if e.Accept? {
      AcceptTold(w, h, e, h');
    } else if e.Shellcode? {
      ShellcodeTold(w, h, h');
    } else if MadeKey(e).Some? {
      CreateTold(w, h, e, h');
    } else if e.DnsQueryDestroyed? || e.DownloadDestroyed? || e.Close? {
      DestroyTold(w, h, e, h');
    } else {
      OtherTold(w, h, e, h');
    }
  }

  lemma MoveFirst<T>(a: seq<T>, b: seq<T>)
    requires b != []
    ensures a + [b[0]] + b[1..] == a + b
  {
  }

  lemma {:induction false} RunTold(w: World, h: seq<Event>, events: seq<Event>)
    requires Inv(w) && Told(w, h) && AllBracketed(w.env, events)
    ensures Inv(Run(w, events)) && Told(Run(w, events), h + events)
    decreases |events|
  {
    if events == [] {
      assert h + events == h;
    } else {
      var e, h', later := events[0], h + [events[0]], events[1..];
      MoveFirst(h, events);
      StepInv(w, e);
      StepTold(w, h, e, h');
      RunTold(Step(w, e), h', later);
    }
  }

  /**
   * Over every bracketed run, the living sockets, queries and downloads belong to the attacks that the events alone
   * tell, and so does every sub-context that was ever made.
   */
  lemma OriginsKept(events: seq<Event>)
    requires AllBracketed(Start.env, events)
    ensures var w := Run(Start, events);
            && w.env == EnvOf(events) && w.t.currentAttack == Handled(events)
            && w.t.nextAttack == Begun(events) && w.t.nextSub == Made(events) && w.owner == Owners(events)
            && forall k :: k in w.env.alive ==> k in w.t.ctxs && AttackOf(w.t, w.t.ctxs[k]) == Origin(events, k)
  {
    StartInv();
    RunTold(Start, [], events);
    assert [] + events == events;
    var w := Run(Start, events);
    HandledTold(w, events);
    forall k ensures k in w.env.alive ==> k in w.t.ctxs && AttackOf(w.t, w.t.ctxs[k]) == Origin(events, k) {
      assert KeyOk(k, w.t.ctxs, w.env.alive, w.t.subs, w.owner) && KeyTold(w.t, events, k);
    }
  }

  // ---------------------------------------------------------------- listeners and their connections

  lemma {:induction false} PrefixBracketed(env: Env, events: seq<Event>, m: nat)
    requires AllBracketed(env, events) && m <= |events|
    ensures AllBracketed(env, events[..m])
    decreases m
  {
    if m > 0 {
      var k := m - 1;
      PrefixBracketed(Next(env, events[0]), events[1..], k);
      assert events[..m][0] == events[0] && events[..m][1..] == events[1..][..k];
    }
  }

  lemma {:induction false} BracketedAt(h: seq<Event>, events: seq<Event>, m: nat)
    requires AllBracketed(EnvOf(h), events) && m < |events|
    ensures Bracketed(EnvOf(h + events[..m]), events[m])
    decreases m
  {
    if m == 0 {
      assert h + events[..0] == h;
    } else {
      var e, h', later, k := events[0], h + [events[0]], events[1..], m - 1;
      assert h'[..|h'| - 1] == h;
      BracketedAt(h', later, k);
      assert h' + later[..k] == h + events[..m] && later[k] == events[m];
    }
  }

  lemma KeyStays(h: seq<Event>, e: Event, h': seq<Event>, socket: nat)
    requires h' == h + [e] && SocketKey(socket) in EnvOf(h).alive
    requires Bracketed(EnvOf(h), e) && e != Close(socket)
    ensures SocketKey(socket) in EnvOf(h').alive && Origin(h', SocketKey(socket)) == Origin(h, SocketKey(socket))
  {
    OneMore(h, e, h', SocketKey(socket));
  }

  lemma BoundOrigin(h: seq<Event>, socket: nat, h': seq<Event>)
    requires h' == h + [Bind(socket)]
    ensures SocketKey(socket) in EnvOf(h').alive && Origin(h', SocketKey(socket)) == Handled(h)
  {
    assert h'[..|h'| - 1] == h;
  }

  /** A listener that is not closed stays with the attack in whose bracket it was bound. */
  lemma {:induction false} StaysBound(events: seq<Event>, i: nat, m: nat, parent: nat)
    requires AllBracketed(Start.env, events) && i < m <= |events| && events[i] == Bind(parent)
    requires forall n :: i < n < m ==> events[n] != Close(parent)
    ensures SocketKey(parent) in EnvOf(events[..m]).alive
    ensures Origin(events[..m], SocketKey(parent)) == Handled(events[..i])
    decreases m
  {
    var k := m - 1;
    var h, h' := events[..k], events[..m];
    assert h' == h + [events[k]];
    if i < k {
      StaysBound(events, i, k, parent);
      assert [] + h == h;
      BracketedAt([], events, k);
      KeyStays(h, events[k], h', parent);
    } else {
      BoundOrigin(h, parent, h');
    }
  }

  lemma AttackTold(h: seq<Event>)
    requires AllBracketed(Start.env, h)
    ensures Run(Start, h).t.currentAttack == Handled(h) && Run(Start, h).t.nextAttack == Begun(h)
  {
    OriginsKept(h);
  }

  lemma KeyAttackTold(h: seq<Event>, k: Key)
    requires AllBracketed(Start.env, h) && k in EnvOf(h).alive
    ensures var t := Run(Start, h).t; k in t.ctxs && AttackOf(t, t.ctxs[k]) == Origin(h, k)
  {
    OriginsKept(h);
  }

  /** What the history says of a connection just accepted. */
  lemma AcceptOrigin(h: seq<Event>, parent: nat, socket: nat, h': seq<Event>)
    requires h' == h + [Accept(parent, socket)]
    ensures var known := Origin(h, SocketKey(parent));
            && Origin(h', SocketKey(socket)) == (if known.Some? then known else Some(Begun(h)))
            && Begun(h') == Begun(h) + (if known.Some? then 0 else 1)
            && SocketKey(socket) in EnvOf(h').alive
  {
    assert h'[..|h'| - 1] == h;
  }

  lemma OwnersBegan(events: seq<Event>)
    requires AllBracketed(Start.env, events)
    ensures var w := Run(Start, events); forall y :: y in w.owner ==> w.owner[y] < w.t.nextAttack
  {
    StartInv();
    RunArchive(Start, events);
    var w := Run(Start, events);
    forall y | y in w.owner ensures w.owner[y] < w.t.nextAttack {
      assert ClosedOk(y, w.t.subs.Keys, w.t.attacks.Keys, w.owner, w.t.nextAttack);
    }
  }

  /** Whatever is handled belongs to an attack. */
  lemma HandledBegan(events: seq<Event>)
    requires AllBracketed(Start.env, events)
    ensures Handled(events).Some? <==> Handling(EnvOf(events))
  {
    StartInv();
    RunTold(Start, [], events);
    assert [] + events == events;
    var w := Run(Start, events);
    HandledTold(w, events);
    if Handling(w.env) {
      CurrentAlive(w);
    }
  }

  lemma AcceptedAfter(h0: seq<Event>, h: seq<Event>, parent: nat, socket: nat, h': seq<Event>)
    requires AllBracketed(Start.env, h0) && AllBracketed(Start.env, h) && AllBracketed(Start.env, h')
    requires h' == h + [Accept(parent, socket)] && Origin(h, SocketKey(parent)) == Handled(h0)
    ensures var current, t, next := Run(Start, h0).t.currentAttack, Run(Start, h').t, Run(Start, h).t.nextAttack;
            && SocketKey(socket) in t.ctxs
            && AttackOf(t, t.ctxs[SocketKey(socket)]) == (if current.Some? then current else Some(next))
            && t.nextAttack == next + (if current.Some? then 0 else 1)
  {
    AttackTold(h0);
    AttackTold(h);
    AttackTold(h');
    AcceptOrigin(h, parent, socket, h');
    KeyAttackTold(h', SocketKey(socket));
  }

  lemma HandlesSome(h: seq<Event>)
    requires AllBracketed(Start.env, h)
    ensures Run(Start, h).t.currentAttack.Some? <==> Handling(EnvOf(h))
  {
    HandledBegan(h);
    AttackTold(h);
  }

  /**
   * Over every bracketed run, a connection belongs to the attack in whose bracket its listener was bound. It belongs to
   * an attack that owned nothing before if and only if its listener was bound outside of every bracket.
   */
  lemma AcceptedFor(events: seq<Event>, i: nat, j: nat, parent: nat, socket: nat)
    requires AllBracketed(Start.env, events) && i < j < |events|
    requires events[i] == Bind(parent) && events[j] == Accept(parent, socket)
    requires forall n :: i < n < j ==> events[n] != Close(parent)
    ensures var bound, at, after := Run(Start, events[..i]), Run(Start, events[..j]), Run(Start, events[..j + 1]);
            && (bound.t.currentAttack.Some? <==> Handling(EnvOf(events[..i])))
            && SocketKey(socket) in after.t.ctxs
            && AttackOf(after.t, after.t.ctxs[SocketKey(socket)])
               == (if bound.t.currentAttack.Some? then bound.t.currentAttack else Some(at.t.nextAttack))
            && after.t.nextAttack == at.t.nextAttack + (if bound.t.currentAttack.Some? then 0 else 1)
            && forall y :: y in at.owner ==> at.owner[y] < at.t.nextAttack
  {
    var k := j + 1;
    var h0, h, h' := events[..i], events[..j], events[..k];
    assert h' == h + [events[j]];
    PrefixBracketed(Start.env, events, i);
    PrefixBracketed(Start.env, events, j);
    PrefixBracketed(Start.env, events, k);
    StaysBound(events, i, j, parent);
    AcceptedAfter(h0, h, parent, socket, h');
    OwnersBegan(h);
    HandlesSome(h0);
  }
}
