/** Over every properly bracketed run, the attack logger keeps its contexts in order and logs each attack once. */
module LogAttackRuns {
  import opened LogAttack
  import opened Options

  // ---------------------------------------------------------------- what surrounds the logger

  /** While an event is handled: for which socket, DNS answer, or none. */
  datatype Bracket = Idle | InSocket(socket: nat) | InAnswer(query: nat)

  /** A socket is listening for itself, listening for an attack, or a connection. */
  datatype Role = FreeListener | Listener | Stream | Other

  /** Which sockets, queries and downloads exist, and what is being handled. */
  datatype Env = Env(alive: map<Key, Role>, bracket: Bracket, shellcode: bool)

  predicate Is(env: Env, k: Key, role: Role) {
    k in env.alive && env.alive[k] == role
  }

  predicate Handling(env: Env) {
    !env.bracket.Idle?
  }

  /** The thing a bracket is about may not end inside it. */
  predicate Busy(env: Env, k: Key) {
    match env.bracket
    case Idle => false
    case InSocket(socket) => k == SocketKey(socket)
    case InAnswer(query) => k == QueryKey(query)
  }

  predicate Bracketed(env: Env, e: Event) {
    match e
    case DnsQueryCreated(query) => Handling(env) && QueryKey(query) !in env.alive
    case DnsQueryDestroyed(query) => QueryKey(query) in env.alive && !Busy(env, QueryKey(query))
    case DnsQueryAnswered(query) => env.bracket.Idle? && QueryKey(query) in env.alive
    case DnsQueryStop => env.bracket.InAnswer?
    case Download(download) => env.bracket.InSocket? && DownloadKey(download) !in env.alive
    case DownloadDestroyed(download) => DownloadKey(download) in env.alive
    case Shellcode => env.bracket.InSocket? && !env.shellcode
    case ShellcodeEnd => env.shellcode
    case Accept(parent, socket) =>
      env.bracket.Idle? && SocketKey(socket) !in env.alive
      && (Is(env, SocketKey(parent), FreeListener) || Is(env, SocketKey(parent), Listener))
    case Bind(socket) => SocketKey(socket) !in env.alive
    case ConnectRequest(socket) => Handling(env) && SocketKey(socket) !in env.alive
    case Close(socket) => !Busy(env, SocketKey(socket))
    case Received(socket) => env.bracket.Idle? && Is(env, SocketKey(socket), Stream)
    case Stop => env.bracket.InSocket? && !env.shellcode
    case Sent(socket) => Is(env, SocketKey(socket), Stream)
    case Connected(socket) => Is(env, SocketKey(socket), Stream)
    case Submission(download) => DownloadKey(download) in env.alive
    case Timeout => true
  }

  function Next(env: Env, e: Event): Env {
    match e
    case DnsQueryCreated(query) => env.(alive := env.alive[QueryKey(query) := Other])
    case DnsQueryDestroyed(query) => env.(alive := env.alive - {QueryKey(query)})
    case DnsQueryAnswered(query) => env.(bracket := InAnswer(query))
    case DnsQueryStop => env.(bracket := Idle)
    case Download(download) => env.(alive := env.alive[DownloadKey(download) := Other])
    case DownloadDestroyed(download) => env.(alive := env.alive - {DownloadKey(download)})
    case Shellcode => env.(shellcode := true)
    case ShellcodeEnd => env.(shellcode := false)
    case Accept(_, socket) => env.(alive := env.alive[SocketKey(socket) := Stream], bracket := InSocket(socket))
    case Bind(socket) => env.(alive := env.alive[SocketKey(socket) := if Handling(env) then Listener else FreeListener])
    case ConnectRequest(socket) => env.(alive := env.alive[SocketKey(socket) := Stream])
    case Close(socket) => env.(alive := env.alive - {SocketKey(socket)})
    case Received(socket) => env.(bracket := InSocket(socket))
    case Stop => env.(bracket := Idle)
    case Sent(_) | Connected(_) | Submission(_) | Timeout => env
  }

  // ---------------------------------------------------------------- the invariant

  /** owner: the attack that each sub-context was created for. */
  datatype World = World(t: Tracker, env: Env, owner: map<nat, nat>)

  const Start := World(Empty, Env(map[], Idle, false), map[])

  function OwnerAfter(w: World, t': Tracker): map<nat, nat> {
    if t'.nextSub == w.t.nextSub then w.owner
    else match t'.currentAttack
      case Some(a) => w.owner[w.t.nextSub := a]
      case None => w.owner
  }

  function Step(w: World, e: Event): World {
    var t' := After(w.t, e);
    World(t', Next(w.env, e), OwnerAfter(w, t'))
  }

  predicate Active(subs: map<nat, Sub>, x: nat) {
    x in subs && subs[x].active
  }

  predicate Tracked(subs: map<nat, Sub>, x: nat) {
    Active(subs, x) && subs[x].kind != ShellcodeCtx
  }

  predicate Ascending(s: seq<nat>) {
    forall i, j :: 0 <= i < j < |s| ==> s[i] < s[j]
  }

  /** The entries of attackOf are the active sub-contexts made for attacks, but for shellcodes. */
  predicate EntryOk(x: nat, attackOf: map<nat, nat>, subs: map<nat, Sub>, owner: map<nat, nat>) {
    && (x in attackOf ==> Tracked(subs, x) && x in owner && owner[x] == attackOf[x])
    && (x in owner && Tracked(subs, x) ==> x in attackOf)
  }

  ghost predicate EntriesInv(attackOf: map<nat, nat>, subs: map<nat, Sub>, owner: map<nat, nat>) {
    forall x: nat :: EntryOk(x, attackOf, subs, owner)
  }

  /** A list of sub-contexts made for attack a, each of them in use and entered once. */
  predicate ListOk(list: seq<nat>, a: nat, inUse: set<nat>, owner: map<nat, nat>) {
    && Ascending(list)
    && forall i :: 0 <= i < |list| ==> list[i] in inUse && list[i] in owner && owner[list[i]] == a
  }

  predicate AttackOk(a: nat, attacks: map<nat, seq<nat>>, inUse: set<nat>, owner: map<nat, nat>, nextAttack: nat) {
    a in attacks ==> a < nextAttack && ListOk(attacks[a], a, inUse, owner)
  }

  ghost predicate AttacksInv(attacks: map<nat, seq<nat>>, inUse: set<nat>, owner: map<nat, nat>, nextAttack: nat) {
    forall a: nat :: AttackOk(a, attacks, inUse, owner, nextAttack)
  }

  /** A sub-context made for an attack is in that attack's list as long as it is in use. */
  predicate OwnerOk(x: nat, inUse: set<nat>, attacks: map<nat, seq<nat>>, owner: map<nat, nat>, nextSub: nat) {
    && (x in owner ==> x < nextSub)
    && (x in inUse && x in owner ==> owner[x] in attacks && x in attacks[owner[x]])
  }

  ghost predicate OwnerInv(inUse: set<nat>, attacks: map<nat, seq<nat>>, owner: map<nat, nat>, nextSub: nat) {
    forall x: nat :: OwnerOk(x, inUse, attacks, owner, nextSub)
  }

  /** A sub-context that was ever created is in use or freed. */
  predicate SubOk(x: nat, inUse: set<nat>, freed: seq<nat>, nextSub: nat) {
    && (x in inUse ==> x < nextSub && x !in freed)
    && (x < nextSub ==> x in inUse || x in freed)
    && (x in freed ==> x < nextSub)
  }

  predicate NoneTwice(s: seq<nat>) {
    forall i, j :: 0 <= i < j < |s| ==> s[i] != s[j]
  }

  ghost predicate SubsInv(inUse: set<nat>, freed: seq<nat>, nextSub: nat) {
    (forall x: nat :: SubOk(x, inUse, freed, nextSub)) && NoneTwice(freed)
  }

  predicate WasLogged(logged: seq<Entry>, a: nat) {
    exists i :: 0 <= i < |logged| && logged[i].attack == a
  }

  /** An attack that was ever begun is alive or was logged. */
  predicate AttackKnown(a: nat, logged: seq<Entry>, live: set<nat>, nextAttack: nat) {
    && (a in live ==> a < nextAttack && !WasLogged(logged, a))
    && (a < nextAttack ==> a in live || WasLogged(logged, a))
    && (WasLogged(logged, a) ==> a < nextAttack)
  }

  predicate LoggedOnce(logged: seq<Entry>) {
    && (forall i, j :: 0 <= i < j < |logged| ==> logged[i].attack != logged[j].attack)
    && (forall i :: 0 <= i < |logged| ==> true !in logged[i].active)
  }

  ghost predicate LoggedInv(logged: seq<Entry>, live: set<nat>, nextAttack: nat) {
    (forall a: nat :: AttackKnown(a, logged, live, nextAttack)) && LoggedOnce(logged)
  }

  /** No attack is kept without something tracked and active. */
  predicate HasEntry(attackOf: map<nat, nat>, a: nat) {
    exists x :: x in attackOf && attackOf[x] == a
  }

  predicate LiveOk(a: nat, attackOf: map<nat, nat>, live: set<nat>) {
    a in live ==> HasEntry(attackOf, a)
  }

  ghost predicate LiveInv(attackOf: map<nat, nat>, live: set<nat>) {
    forall a: nat :: LiveOk(a, attackOf, live)
  }

  /** A key's sub-context is tracked, and made for an attack unless the key is a listener's for itself. */
  predicate KeyOk(k: Key, ctxs: map<Key, nat>, alive: map<Key, Role>, subs: map<nat, Sub>, owner: map<nat, nat>) {
    && (k in ctxs <==> k in alive)
    && (k in ctxs ==> Tracked(subs, ctxs[k]) && (ctxs[k] in owner <==> alive[k] != FreeListener))
    && (k in alive ==> (k.SocketKey? <==> alive[k] != Other))
  }

  predicate SameKey(k: Key, k': Key, ctxs: map<Key, nat>) {
    k in ctxs && k' in ctxs && ctxs[k] == ctxs[k'] ==> k == k'
  }

  predicate HasKey(ctxs: map<Key, nat>, x: nat) {
    exists k :: k in ctxs && ctxs[k] == x
  }

  /** What was made for no attack, and what is active but for a shellcode, is some key's. */
  predicate HeldOk(x: nat, ctxs: map<Key, nat>, subs: map<nat, Sub>, owner: map<nat, nat>) {
    (x in subs && x !in owner) || Tracked(subs, x) ==> HasKey(ctxs, x)
  }

  ghost predicate KeysInv(ctxs: map<Key, nat>, alive: map<Key, Role>, subs: map<nat, Sub>, owner: map<nat, nat>) {
    && (forall k :: KeyOk(k, ctxs, alive, subs, owner))
    && (forall k, k' :: SameKey(k, k', ctxs))
    && (forall x: nat :: HeldOk(x, ctxs, subs, owner))
  }

  /** The key of the socket or the DNS query that the bracket is about. */
  function Current(env: Env): Key
    requires Handling(env)
  {
    if env.bracket.InSocket? then SocketKey(env.bracket.socket) else QueryKey(env.bracket.query)
  }

  /** The only active shellcode is the one being handled. */
  predicate ShellOk(x: nat, subs: map<nat, Sub>, shell: Option<nat>) {
    (x in subs && subs[x] == Sub(ShellcodeCtx, true)) ==> shell == Some(x)
  }

  ghost predicate ShellInv(t: Tracker, env: Env) {
    && (env.shellcode ==> env.bracket.InSocket?)
    && (env.shellcode <==> t.currentShellcode.Some?)
    && (env.shellcode ==>
          && t.currentShellcode.value in t.subs && t.subs[t.currentShellcode.value] == Sub(ShellcodeCtx, true)
          && t.currentShellcode.value !in t.attackOf
          && t.currentAttack.Some? && t.currentAttack.value in t.attacks
          && t.currentShellcode.value in t.attacks[t.currentAttack.value])
    && (forall x: nat :: ShellOk(x, t.subs, t.currentShellcode))
  }

  /** The current pointers are those of the bracket. */
  predicate PointersInv(t: Tracker, env: Env) {
    if Handling(env) then
      var k := Current(env);
      && k in env.alive && (env.bracket.InSocket? ==> env.alive[k] == Stream)
      && k in t.ctxs && t.ctxs[k] in t.attackOf
      && t.currentSocket == (if env.bracket.InSocket? then Some(t.ctxs[k]) else None)
      && t.currentAttack == Some(t.attackOf[t.ctxs[k]])
    else t.currentAttack == None && t.currentSocket == None
  }

  ghost predicate HeapInv(t: Tracker, owner: map<nat, nat>) {
    && EntriesInv(t.attackOf, t.subs, owner)
    && AttacksInv(t.attacks, t.subs.Keys, owner, t.nextAttack)
    && OwnerInv(t.subs.Keys, t.attacks, owner, t.nextSub)
    && SubsInv(t.subs.Keys, t.freed, t.nextSub)
    && LoggedInv(t.logged, t.attacks.Keys, t.nextAttack)
    && t.count == |t.attacks|
  }

  ghost predicate Inv(w: World) {
    && HeapInv(w.t, w.owner) && LiveInv(w.t.attackOf, w.t.attacks.Keys)
    && KeysInv(w.t.ctxs, w.env.alive, w.t.subs, w.owner)
    && ShellInv(w.t, w.env) && PointersInv(w.t, w.env)
  }

  // ---------------------------------------------------------------- sub-contexts come

  lemma MemberOfExtended(s: seq<nat>, x: nat)
    ensures forall y :: y in s + [x] <==> y in s || y == x
  {
  }

  lemma NextSubFresh(t: Tracker, owner: map<nat, nat>)
    requires HeapInv(t, owner)
    ensures t.nextSub !in t.subs && t.nextSub !in owner && t.nextSub !in t.attackOf
  {
    var x := t.nextSub;
    assert SubOk(x, t.subs.Keys, t.freed, x) && OwnerOk(x, t.subs.Keys, t.attacks, owner, x);
    assert EntryOk(x, t.attackOf, t.subs, owner);
  }

  lemma AddToUse(inUse: set<nat>, freed: seq<nat>, nextSub: nat)
    requires SubsInv(inUse, freed, nextSub)
    ensures SubsInv(inUse + {nextSub}, freed, nextSub + 1)
  {
    var next := nextSub + 1;
    forall x: nat ensures SubOk(x, inUse + {nextSub}, freed, next) {
      assert SubOk(x, inUse, freed, nextSub);
    }
  }

  lemma AddToList(list: seq<nat>, a: nat, inUse: set<nat>, owner: map<nat, nat>, x: nat)
    requires ListOk(list, a, inUse, owner) && forall y :: y in inUse ==> y < x
    ensures ListOk(list + [x], a, inUse + {x}, owner[x := a])
  {
  }

  lemma KeepList(list: seq<nat>, a: nat, inUse: set<nat>, owner: map<nat, nat>, x: nat, b: nat)
    requires ListOk(list, a, inUse, owner) && x !in inUse
    ensures ListOk(list, a, inUse + {x}, owner[x := b])
    ensures ListOk(list, a, inUse + {x}, owner)
  {
  }

  lemma AddToAttacks(attacks: map<nat, seq<nat>>, inUse: set<nat>, owner: map<nat, nat>, nextAttack: nat,
                     a: nat, x: nat)
    requires AttacksInv(attacks, inUse, owner, nextAttack) && a in attacks && forall y :: y in inUse ==> y < x
    ensures AttacksInv(attacks[a := attacks[a] + [x]], inUse + {x}, owner[x := a], nextAttack)
  {
    var attacks', owner' := attacks[a := attacks[a] + [x]], owner[x := a];
    forall b: nat ensures AttackOk(b, attacks', inUse + {x}, owner', nextAttack) {
      assert AttackOk(b, attacks, inUse, owner, nextAttack);
      if b == a {
        AddToList(attacks[a], a, inUse, owner, x);
      } else if b in attacks {
        KeepList(attacks[b], b, inUse, owner, x, a);
      }
    }
  }

  lemma AddToOwner(inUse: set<nat>, attacks: map<nat, seq<nat>>, owner: map<nat, nat>, x: nat, a: nat)
    requires OwnerInv(inUse, attacks, owner, x) && a in attacks && x !in inUse
    ensures OwnerInv(inUse + {x}, attacks[a := attacks[a] + [x]], owner[x := a], x + 1)
  {
    MemberOfExtended(attacks[a], x);
    var attacks', owner', next := attacks[a := attacks[a] + [x]], owner[x := a], x + 1;
    forall y: nat ensures OwnerOk(y, inUse + {x}, attacks', owner', next) {
      assert OwnerOk(y, inUse, attacks, owner, x);
    }
  }

  lemma AddToEntries(attackOf: map<nat, nat>, subs: map<nat, Sub>, owner: map<nat, nat>, x: nat, kind: Kind, a: nat)
    requires EntriesInv(attackOf, subs, owner) && x !in subs && x !in owner
    ensures EntriesInv(if kind == ShellcodeCtx then attackOf else attackOf[x := a],
                       subs[x := Sub(kind, true)], owner[x := a])
  {
    var attackOf' := if kind == ShellcodeCtx then attackOf else attackOf[x := a];
    var subs', owner' := subs[x := Sub(kind, true)], owner[x := a];
    forall y: nat ensures EntryOk(y, attackOf', subs', owner') {
      assert EntryOk(y, attackOf, subs, owner);
    }
  }

  lemma KeepEntries(attackOf: map<nat, nat>, subs: map<nat, Sub>, owner: map<nat, nat>, x: nat, sub: Sub)
    requires EntriesInv(attackOf, subs, owner) && x !in subs && x !in owner
    ensures EntriesInv(attackOf, subs[x := sub], owner)
  {
    var subs' := subs[x := sub];
    forall y: nat ensures EntryOk(y, attackOf, subs', owner) {
      assert EntryOk(y, attackOf, subs, owner);
    }
  }

  lemma UseBelowNext(inUse: set<nat>, freed: seq<nat>, nextSub: nat)
    requires SubsInv(inUse, freed, nextSub)
    ensures forall y :: y in inUse ==> y < nextSub
  {
    forall y | y in inUse ensures y < nextSub {
      assert SubOk(y, inUse, freed, nextSub);
    }
  }

  lemma AddSubHeap(t: Tracker, owner: map<nat, nat>, kind: Kind, a: nat)
    requires HeapInv(t, owner) && a in t.attacks
    ensures HeapInv(AddSub(t, kind, Some(a)), owner[t.nextSub := a])
  {
    var x, t' := t.nextSub, AddSub(t, kind, Some(a));
    NextSubFresh(t, owner);
    UseBelowNext(t.subs.Keys, t.freed, x);
    assert t'.subs.Keys == t.subs.Keys + {x} && t'.attacks.Keys == t.attacks.Keys;
    AddToEntries(t.attackOf, t.subs, owner, x, kind, a);
    AddToAttacks(t.attacks, t.subs.Keys, owner, t.nextAttack, a, x);
    AddToOwner(t.subs.Keys, t.attacks, owner, x, a);
    AddToUse(t.subs.Keys, t.freed, x);
  }

  lemma KeepAttacks(attacks: map<nat, seq<nat>>, inUse: set<nat>, owner: map<nat, nat>, nextAttack: nat, x: nat)
    requires AttacksInv(attacks, inUse, owner, nextAttack) && x !in inUse
    ensures AttacksInv(attacks, inUse + {x}, owner, nextAttack)
  {
    forall b: nat ensures AttackOk(b, attacks, inUse + {x}, owner, nextAttack) {
      assert AttackOk(b, attacks, inUse, owner, nextAttack);
      if b in attacks {
        KeepList(attacks[b], b, inUse, owner, x, 0);
      }
    }
  }

  lemma KeepOwner(inUse: set<nat>, attacks: map<nat, seq<nat>>, owner: map<nat, nat>, x: nat)
    requires OwnerInv(inUse, attacks, owner, x) && x !in owner
    ensures OwnerInv(inUse + {x}, attacks, owner, x + 1)
  {
    var next := x + 1;
    forall y: nat ensures OwnerOk(y, inUse + {x}, attacks, owner, next) {
      assert OwnerOk(y, inUse, attacks, owner, x);
    }
  }

  lemma AddFreeHeap(t: Tracker, owner: map<nat, nat>, kind: Kind)
    requires HeapInv(t, owner)
    ensures HeapInv(AddSub(t, kind, None), owner)
  {
    NextSubFresh(t, owner);
    KeepHeap(t, t.(subs := t.subs[t.nextSub := Sub(kind, true)], nextSub := t.nextSub + 1), owner, Sub(kind, true));
  }

  lemma KeepHeap(t: Tracker, t': Tracker, owner: map<nat, nat>, sub: Sub)
    requires HeapInv(t, owner) && t.nextSub !in t.subs && t.nextSub !in owner
    requires t' == t.(subs := t.subs[t.nextSub := sub], nextSub := t.nextSub + 1)
    ensures HeapInv(t', owner)
  {
    var x, inUse, inUse' := t.nextSub, t.subs.Keys, t'.subs.Keys;
    assert inUse' == inUse + {x};
    KeepEntries(t.attackOf, t.subs, owner, x, sub);
    AddToUse(inUse, t.freed, x);
    KeepAttacks(t.attacks, inUse, owner, t.nextAttack, x);
    KeepOwner(inUse, t.attacks, owner, x);
  }

  lemma BeginLogged(logged: seq<Entry>, live: set<nat>, a: nat)
    requires LoggedInv(logged, live, a)
    ensures a !in live && LoggedInv(logged, live + {a}, a + 1)
  {
    assert AttackKnown(a, logged, live, a);
    var next := a + 1;
    forall b: nat ensures AttackKnown(b, logged, live + {a}, next) {
      assert AttackKnown(b, logged, live, a);
    }
  }

  lemma BeginAttacks(attacks: map<nat, seq<nat>>, inUse: set<nat>, owner: map<nat, nat>, a: nat)
    requires AttacksInv(attacks, inUse, owner, a)
    ensures AttacksInv(attacks[a := []], inUse, owner, a + 1)
  {
    var attacks', next := attacks[a := []], a + 1;
    forall b: nat ensures AttackOk(b, attacks', inUse, owner, next) {
      assert AttackOk(b, attacks, inUse, owner, a);
    }
  }

  lemma BeginOwner(inUse: set<nat>, attacks: map<nat, seq<nat>>, owner: map<nat, nat>, nextSub: nat, a: nat)
    requires OwnerInv(inUse, attacks, owner, nextSub) && a !in attacks
    ensures OwnerInv(inUse, attacks[a := []], owner, nextSub)
  {
    var attacks' := attacks[a := []];
    forall x: nat ensures OwnerOk(x, inUse, attacks', owner, nextSub) {
      assert OwnerOk(x, inUse, attacks, owner, nextSub);
    }
  }

  lemma NewAttackHeap(t: Tracker, owner: map<nat, nat>)
    requires HeapInv(t, owner)
    ensures HeapInv(WithNewAttack(t), owner)
    ensures t.nextAttack !in t.attacks
  {
    var a := t.nextAttack;
    assert WithNewAttack(t).attacks.Keys == t.attacks.Keys + {a};
    BeginLogged(t.logged, t.attacks.Keys, a);
    BeginAttacks(t.attacks, t.subs.Keys, owner, a);
    BeginOwner(t.subs.Keys, t.attacks, owner, t.nextSub, a);
  }

  // ---------------------------------------------------------------- sub-contexts go

  lemma {:induction false} FlagsMember(subs: map<nat, Sub>, ctxs: seq<nat>)
    ensures true in ActiveFlags(subs, ctxs) <==> exists x :: x in ctxs && Active(subs, x)
  {
    if ctxs != [] {
      FlagsMember(subs, ctxs[1..]);
      assert forall x :: x in ctxs <==> x == ctxs[0] || x in ctxs[1..];
      assert forall b :: b in ActiveFlags(subs, ctxs) <==>
        b == Active(subs, ctxs[0]) || b in ActiveFlags(subs, ctxs[1..]);
    }
  }

  function Deactivated(subs: map<nat, Sub>, x: nat): map<nat, Sub>
    requires x in subs
  {
    subs[x := subs[x].(active := false)]
  }

  function SetOf(s: seq<nat>): set<nat> {
    set y | y in s
  }

  /** The ways a keyed sub-context can end: it had no attack, others of its attack are active, or it was the last. */
  function EndFree(t: Tracker, k: Key, x: nat): Tracker {
    t.(ctxs := t.ctxs - {k}, subs := t.subs - {x}, freed := t.freed + [x], attackOf := t.attackOf - {x})
  }

  function EndEarly(t: Tracker, k: Key, x: nat): Tracker
    requires x in t.subs
  {
    t.(ctxs := t.ctxs - {k}, subs := Deactivated(t.subs, x), attackOf := t.attackOf - {x})
  }

  function EndLast(t: Tracker, k: Key, x: nat, a: nat): Tracker
    requires x in t.subs
  {
    var ctxs := ListOf(t, a);
    t.(ctxs := t.ctxs - {k}, subs := Deactivated(t.subs, x) - SetOf(ctxs), attackOf := t.attackOf - {x},
       attacks := t.attacks - {a}, count := t.count - 1, freed := t.freed + ctxs,
       logged := t.logged + [Entry(a, ctxs, ActiveFlags(Deactivated(t.subs, x), ctxs))])
  }

  /** Something in the list is active once x is not. */
  predicate OtherActive(t: Tracker, list: seq<nat>, x: nat)
    requires x in t.subs
  {
    true in ActiveFlags(Deactivated(t.subs, x), list)
  }

  lemma RetireCases(t: Tracker, k: Key)
    requires k in t.ctxs && t.ctxs[k] in t.subs
    ensures var x := t.ctxs[k];
            Retire(t, k)
            == if x !in t.attackOf then EndFree(t, k, x)
               else if OtherActive(t, ListOf(t, t.attackOf[x]), x) then EndEarly(t, k, x)
               else EndLast(t, k, x, t.attackOf[x])
  {
    var x := t.ctxs[k];
    if x !in t.attackOf {
      assert Deactivated(t.subs, x) - {x} == t.subs - {x};
    }
  }

  lemma FreeOne(inUse: set<nat>, freed: seq<nat>, nextSub: nat, x: nat)
    requires SubsInv(inUse, freed, nextSub) && x in inUse
    ensures SubsInv(inUse - {x}, freed + [x], nextSub)
  {
    MemberOfExtended(freed, x);
    forall y: nat ensures SubOk(y, inUse - {x}, freed + [x], nextSub) {
      assert SubOk(y, inUse, freed, nextSub);
    }
    assert SubOk(x, inUse, freed, nextSub);
  }

  lemma FreeOwner(inUse: set<nat>, attacks: map<nat, seq<nat>>, owner: map<nat, nat>, nextSub: nat, gone: set<nat>)
    requires OwnerInv(inUse, attacks, owner, nextSub)
    ensures OwnerInv(inUse - gone, attacks, owner, nextSub)
  {
    forall y: nat ensures OwnerOk(y, inUse - gone, attacks, owner, nextSub) {
      assert OwnerOk(y, inUse, attacks, owner, nextSub);
    }
  }

  /** Attacks that own none of what is freed keep their lists. */
  lemma FreeAttacks(attacks: map<nat, seq<nat>>, attacks': map<nat, seq<nat>>, inUse: set<nat>, owner: map<nat, nat>,
                    nextAttack: nat, gone: set<nat>)
    requires AttacksInv(attacks, inUse, owner, nextAttack)
    requires forall a :: a in attacks' ==> a in attacks && attacks'[a] == attacks[a]
    requires forall x :: x in gone && x in owner ==> owner[x] !in attacks'
    ensures AttacksInv(attacks', inUse - gone, owner, nextAttack)
  {
    forall a: nat ensures AttackOk(a, attacks', inUse - gone, owner, nextAttack) {
      assert AttackOk(a, attacks, inUse, owner, nextAttack);
      if a in attacks' {
        forall i | 0 <= i < |attacks[a]| ensures attacks[a][i] !in gone {
          assert owner[attacks[a][i]] == a;
        }
      }
    }
  }

  lemma EndFreeHeap(t: Tracker, owner: map<nat, nat>, k: Key, x: nat)
    requires HeapInv(t, owner) && x in t.subs && x !in owner
    ensures HeapInv(EndFree(t, k, x), owner)
  {
    assert (t.subs - {x}).Keys == t.subs.Keys - {x};
    assert EntryOk(x, t.attackOf, t.subs, owner);
    forall y: nat ensures EntryOk(y, t.attackOf - {x}, t.subs - {x}, owner) {
      assert EntryOk(y, t.attackOf, t.subs, owner);
    }
    FreeOne(t.subs.Keys, t.freed, t.nextSub, x);
    FreeOwner(t.subs.Keys, t.attacks, owner, t.nextSub, {x});
    FreeAttacks(t.attacks, t.attacks, t.subs.Keys, owner, t.nextAttack, {x});
  }

  lemma EndEarlyHeap(t: Tracker, owner: map<nat, nat>, k: Key, x: nat)
    requires HeapInv(t, owner) && x in t.subs
    ensures HeapInv(EndEarly(t, k, x), owner)
  {
    var subs' := Deactivated(t.subs, x);
    assert subs'.Keys == t.subs.Keys;
    forall y: nat ensures EntryOk(y, t.attackOf - {x}, subs', owner) {
      assert EntryOk(y, t.attackOf, t.subs, owner);
    }
  }

  lemma FreeList(inUse: set<nat>, freed: seq<nat>, nextSub: nat, list: seq<nat>)
    requires SubsInv(inUse, freed, nextSub) && Ascending(list)
    requires forall i :: 0 <= i < |list| ==> list[i] in inUse
    ensures SubsInv(inUse - SetOf(list), freed + list, nextSub)
  {
    forall y: nat ensures SubOk(y, inUse - SetOf(list), freed + list, nextSub) {
      assert SubOk(y, inUse, freed, nextSub);
    }
    forall i, j | 0 <= i < j < |freed + list| ensures (freed + list)[i] != (freed + list)[j] {
      if i < |freed| <= j {
        assert SubOk(list[j - |freed|], inUse, freed, nextSub) && freed[i] in freed;
      }
    }
  }

  lemma LogOne(logged: seq<Entry>, live: set<nat>, nextAttack: nat, entry: Entry)
    requires LoggedInv(logged, live, nextAttack)
    requires entry.attack in live && true !in entry.active
    ensures LoggedInv(logged + [entry], live - {entry.attack}, nextAttack)
  {
    var logged' := logged + [entry];
    assert AttackKnown(entry.attack, logged, live, nextAttack);
    forall a: nat ensures AttackKnown(a, logged', live - {entry.attack}, nextAttack) {
      assert AttackKnown(a, logged, live, nextAttack);
      LoggedExtended(logged, entry, a);
    }
    forall i | 0 <= i < |logged| ensures logged[i].attack != entry.attack {
      assert !WasLogged(logged, entry.attack);
    }
  }

  lemma LoggedExtended(logged: seq<Entry>, entry: Entry, a: nat)
    ensures WasLogged(logged + [entry], a) <==> WasLogged(logged, a) || entry.attack == a
  {
    var logged' := logged + [entry];
    if WasLogged(logged, a) {
      var i :| 0 <= i < |logged| && logged[i].attack == a;
      assert logged'[i].attack == a;
    }
    assert logged'[|logged|] == entry;
  }

  /** If nothing else in the list is active, an active sub-context outside of it stays as it was. */
  lemma InactiveList(t: Tracker, list: seq<nat>, x: nat)
    requires x in t.subs && x in list && !OtherActive(t, list, x)
    ensures forall y: nat :: y != x && Active(t.subs, y) ==> y !in list
    ensures var subs' := Deactivated(t.subs, x) - SetOf(list);
            && (forall y: nat :: Active(subs', y) <==> y != x && Active(t.subs, y))
            && (forall y: nat :: y in subs' ==> y in t.subs && subs'[y] == t.subs[y])
  {
    var d := Deactivated(t.subs, x);
    FlagsMember(d, list);
    assert forall y: nat :: y != x ==> (Active(t.subs, y) <==> Active(d, y));
  }

  lemma EndLastOwner(inUse: set<nat>, attacks: map<nat, seq<nat>>, owner: map<nat, nat>, nextSub: nat, a: nat)
    requires OwnerInv(inUse, attacks, owner, nextSub) && a in attacks
    ensures OwnerInv(inUse - SetOf(attacks[a]), attacks - {a}, owner, nextSub)
  {
    forall y: nat ensures OwnerOk(y, inUse - SetOf(attacks[a]), attacks - {a}, owner, nextSub) {
      assert OwnerOk(y, inUse, attacks, owner, nextSub);
    }
  }

  lemma EndLastHeap(t: Tracker, owner: map<nat, nat>, k: Key, x: nat, a: nat)
    requires HeapInv(t, owner) && x in t.subs && a in t.attacks && x in t.attacks[a]
    requires !OtherActive(t, t.attacks[a], x)
    ensures HeapInv(EndLast(t, k, x, a), owner)
  {
    var list, subs' := t.attacks[a], Deactivated(t.subs, x) - SetOf(t.attacks[a]);
    assert AttackOk(a, t.attacks, t.subs.Keys, owner, t.nextAttack);
    assert subs'.Keys == t.subs.Keys - SetOf(list);
    assert (t.attacks - {a}).Keys == t.attacks.Keys - {a};
    InactiveList(t, list, x);
    forall y: nat ensures EntryOk(y, t.attackOf - {x}, subs', owner) {
      assert EntryOk(y, t.attackOf, t.subs, owner);
    }
    FreeList(t.subs.Keys, t.freed, t.nextSub, list);
    FreeAttacks(t.attacks, t.attacks - {a}, t.subs.Keys, owner, t.nextAttack, SetOf(list));
    EndLastOwner(t.subs.Keys, t.attacks, owner, t.nextSub, a);
    LogOne(t.logged, t.attacks.Keys, t.nextAttack, Entry(a, list, ActiveFlags(Deactivated(t.subs, x), list)));
  }

  // ---------------------------------------------------------------- keys

  lemma KeyAdded(ctxs: map<Key, nat>, k: Key, x: nat, y: nat)
    requires k !in ctxs
    ensures HasKey(ctxs[k := x], x)
    ensures HasKey(ctxs, y) ==> HasKey(ctxs[k := x], y)
  {
    assert ctxs[k := x][k] == x;
    if HasKey(ctxs, y) {
      var j :| j in ctxs && ctxs[j] == y;
      assert ctxs[k := x][j] == y;
    }
  }

  lemma KeyDropped(ctxs: map<Key, nat>, k: Key, y: nat)
    requires k in ctxs && HasKey(ctxs, y) && y != ctxs[k]
    ensures HasKey(ctxs - {k}, y)
  {
    var j :| j in ctxs && ctxs[j] == y;
    assert (ctxs - {k})[j] == y;
  }

  /** A new key with a new sub-context of its own, made for an attack or for a free listener. */
  lemma AddKeys(ctxs: map<Key, nat>, alive: map<Key, Role>, subs: map<nat, Sub>, owner: map<nat, nat>,
                owner': map<nat, nat>, k: Key, role: Role, x: nat, sub: Sub)
    requires KeysInv(ctxs, alive, subs, owner) && k !in alive && x !in subs
    requires sub.active && sub.kind != ShellcodeCtx && (k.SocketKey? <==> role != Other)
    requires forall y: nat :: y != x ==> (y in owner' <==> y in owner)
    requires x in owner' <==> role != FreeListener
    ensures KeysInv(ctxs[k := x], alive[k := role], subs[x := sub], owner')
  {
    var ctxs', alive', subs' := ctxs[k := x], alive[k := role], subs[x := sub];
    assert KeyOk(k, ctxs, alive, subs, owner);
    forall j ensures KeyOk(j, ctxs', alive', subs', owner') && (j in ctxs ==> ctxs[j] != x) {
      assert KeyOk(j, ctxs, alive, subs, owner);
    }
    forall j, j' ensures SameKey(j, j', ctxs') {
      assert SameKey(j, j', ctxs) && KeyOk(j, ctxs, alive, subs, owner) && KeyOk(j', ctxs, alive, subs, owner);
    }
    forall y: nat ensures HeldOk(y, ctxs', subs', owner') {
      assert HeldOk(y, ctxs, subs, owner);
      KeyAdded(ctxs, k, x, y);
    }
  }

  /** Nothing happens to the keyed sub-contexts, and what is new belongs to an attack. */
  lemma KeepKeys(ctxs: map<Key, nat>, alive: map<Key, Role>, subs: map<nat, Sub>, subs': map<nat, Sub>,
                 owner: map<nat, nat>, owner': map<nat, nat>)
    requires KeysInv(ctxs, alive, subs, owner)
    requires forall x: nat :: Tracked(subs, x) <==> Tracked(subs', x)
    requires forall x: nat :: Tracked(subs, x) ==> (x in owner' <==> x in owner)
    requires forall x: nat :: x in subs' && x !in owner' ==> x in subs && x !in owner
    ensures KeysInv(ctxs, alive, subs', owner')
  {
    forall j ensures KeyOk(j, ctxs, alive, subs', owner') {
      assert KeyOk(j, ctxs, alive, subs, owner);
    }
    forall y: nat ensures HeldOk(y, ctxs, subs', owner') {
      assert HeldOk(y, ctxs, subs, owner);
    }
  }

  /** The sub-context of one key ends; those of other keys are untouched. */
  lemma EndKeys(ctxs: map<Key, nat>, alive: map<Key, Role>, subs: map<nat, Sub>, subs': map<nat, Sub>,
                owner: map<nat, nat>, k: Key)
    requires KeysInv(ctxs, alive, subs, owner) && k in ctxs
    requires forall x: nat :: Tracked(subs, x) && x != ctxs[k] <==> Tracked(subs', x)
    requires subs'.Keys <= subs.Keys && (ctxs[k] in owner || ctxs[k] !in subs')
    ensures KeysInv(ctxs - {k}, alive - {k}, subs', owner)
  {
    forall j ensures KeyOk(j, ctxs - {k}, alive - {k}, subs', owner) {
      assert KeyOk(j, ctxs, alive, subs, owner) && SameKey(j, k, ctxs);
    }
    forall j, j' ensures SameKey(j, j', ctxs - {k}) {
      assert SameKey(j, j', ctxs);
    }
    forall y: nat ensures HeldOk(y, ctxs - {k}, subs', owner) {
      assert HeldOk(y, ctxs, subs, owner);
      if (y in subs' && y !in owner) || Tracked(subs', y) {
        KeyDropped(ctxs, k, y);
      }
    }
  }

  lemma EndFreeKeys(ctxs: map<Key, nat>, alive: map<Key, Role>, subs: map<nat, Sub>, owner: map<nat, nat>, k: Key)
    requires KeysInv(ctxs, alive, subs, owner) && k in ctxs
    ensures KeysInv(ctxs - {k}, alive - {k}, subs - {ctxs[k]}, owner)
  {
    EndKeys(ctxs, alive, subs, subs - {ctxs[k]}, owner, k);
  }

  // ---------------------------------------------------------------- live attacks

  lemma AddLive(attackOf: map<nat, nat>, live: set<nat>, live': set<nat>, x: nat, a: nat)
    requires LiveInv(attackOf, live) && live' <= live + {a} && x !in attackOf
    ensures LiveInv(attackOf[x := a], live')
  {
    var attackOf' := attackOf[x := a];
    assert attackOf'[x] == a;
    forall b: nat ensures LiveOk(b, attackOf', live') {
      assert LiveOk(b, attackOf, live);
      if b in live' && b != a {
        var y :| y in attackOf && attackOf[y] == b;
        assert attackOf'[y] == b;
      }
    }
  }

  lemma DropLive(attackOf: map<nat, nat>, live: set<nat>, live': set<nat>, x: nat)
    requires LiveInv(attackOf, live) && live' <= live
    requires x in attackOf && attackOf[x] in live' ==> HasEntry(attackOf - {x}, attackOf[x])
    ensures LiveInv(attackOf - {x}, live')
  {
    forall b: nat ensures LiveOk(b, attackOf - {x}, live') {
      assert LiveOk(b, attackOf, live);
      if b in live' && !(x in attackOf && attackOf[x] == b) {
        var y :| y in attackOf && attackOf[y] == b;
        assert (attackOf - {x})[y] == b;
      }
    }
  }

  // ---------------------------------------------------------------- every event keeps the invariant

  /** What an event must leave alone for the shellcode being handled. */
  lemma KeepShell(t: Tracker, t': Tracker, env: Env, env': Env)
    requires ShellInv(t, env)
    requires env'.bracket == env.bracket && env'.shellcode == env.shellcode
    requires t'.currentShellcode == t.currentShellcode && t'.currentAttack == t.currentAttack
    requires forall x: nat :: x in t'.subs && t'.subs[x] == Sub(ShellcodeCtx, true) ==>
               x in t.subs && t.subs[x] == t'.subs[x]
    requires env.shellcode ==>
      var x, a := t.currentShellcode.value, t.currentAttack.value;
      x in t'.subs && t'.subs[x] == t.subs[x] && x !in t'.attackOf && a in t'.attacks && x in t'.attacks[a]
    ensures ShellInv(t', env')
  {
    forall x: nat ensures ShellOk(x, t'.subs, t'.currentShellcode) {
      assert ShellOk(x, t.subs, t.currentShellcode);
    }
  }

  lemma CurrentAlive(w: World)
    requires Inv(w) && Handling(w.env)
    ensures w.t.currentAttack.Some? && w.t.currentAttack.value in w.t.attacks
    ensures var k := Current(w.env);
            k in w.t.ctxs && w.t.ctxs[k] in w.t.subs && w.t.ctxs[k] in w.t.attackOf
            && w.t.attackOf[w.t.ctxs[k]] == w.t.currentAttack.value
  {
    var x := w.t.ctxs[Current(w.env)];
    assert EntryOk(x, w.t.attackOf, w.t.subs, w.owner);
    assert OwnerOk(x, w.t.subs.Keys, w.t.attacks, w.owner, w.t.nextSub);
  }

  /** Something new for the attack of the bracket. */
  lemma AddStep(w: World, k: Key, kind: Kind, role: Role)
    requires Inv(w) && Handling(w.env) && k !in w.env.alive
    requires kind != ShellcodeCtx && role != FreeListener && (k.SocketKey? <==> role != Other)
    ensures w.t.currentAttack.Some?
    ensures var a := w.t.currentAttack.value;
            Inv(World(AddKeyed(w.t, k, kind, Some(a)), w.env.(alive := w.env.alive[k := role]),
                      w.owner[w.t.nextSub := a]))
  {
    CurrentAlive(w);
    NextSubFresh(w.t, w.owner);
    var a, x := w.t.currentAttack.value, w.t.nextSub;
    var t', env' := AddKeyed(w.t, k, kind, Some(a)), w.env.(alive := w.env.alive[k := role]);
    AddSubHeap(w.t, w.owner, kind, a);
    AddKeys(w.t.ctxs, w.env.alive, w.t.subs, w.owner, w.owner[x := a], k, role, x, Sub(kind, true));
    AddLive(w.t.attackOf, w.t.attacks.Keys, t'.attacks.Keys, x, a);
    MemberOfExtended(w.t.attacks[a], x);
    KeepShell(w.t, t', w.env, env');
    assert KeyOk(k, w.t.ctxs, w.env.alive, w.t.subs, w.owner);
  }

  /** A listener outside of any bracket belongs to no attack. */
  lemma AddFreeStep(w: World, k: Key)
    requires Inv(w) && !Handling(w.env) && k !in w.env.alive && k.SocketKey?
    ensures w.t.currentAttack == None
    ensures Inv(World(AddKeyed(w.t, k, SocketCtx, None), w.env.(alive := w.env.alive[k := FreeListener]), w.owner))
  {
    NextSubFresh(w.t, w.owner);
    var x := w.t.nextSub;
    var t', env' := AddKeyed(w.t, k, SocketCtx, None), w.env.(alive := w.env.alive[k := FreeListener]);
    AddFreeHeap(w.t, w.owner, SocketCtx);
    AddKeys(w.t.ctxs, w.env.alive, w.t.subs, w.owner, w.owner, k, FreeListener, x, Sub(SocketCtx, true));
    KeepShell(w.t, t', w.env, env');
  }

  /** A shellcode for the attack of the bracket. */
  lemma ShellcodeStep(w: World)
    requires Inv(w) && w.env.bracket.InSocket? && !w.env.shellcode
    ensures Inv(Step(w, Shellcode))
  {
    CurrentAlive(w);
    NextSubFresh(w.t, w.owner);
    var a, x := w.t.currentAttack.value, w.t.nextSub;
    var t' := After(w.t, Shellcode);
    AddSubHeap(w.t, w.owner, ShellcodeCtx, a);
    KeepKeys(w.t.ctxs, w.env.alive, w.t.subs, t'.subs, w.owner, w.owner[x := a]);
    assert t'.attacks.Keys == w.t.attacks.Keys;
    MemberOfExtended(w.t.attacks[a], x);
    forall y: nat ensures ShellOk(y, t'.subs, Some(x)) {
      assert ShellOk(y, w.t.subs, w.t.currentShellcode);
    }
  }

  lemma ShellcodeEndStep(w: World)
    requires Inv(w) && w.env.shellcode
    ensures Inv(Step(w, ShellcodeEnd))
  {
    var x, t' := w.t.currentShellcode.value, After(w.t, ShellcodeEnd);
    assert t'.subs.Keys == w.t.subs.Keys;
    var subs' := t'.subs;
    forall y: nat ensures EntryOk(y, w.t.attackOf, subs', w.owner) {
      assert EntryOk(y, w.t.attackOf, w.t.subs, w.owner);
    }
    KeepKeys(w.t.ctxs, w.env.alive, w.t.subs, subs', w.owner, w.owner);
    forall y: nat ensures ShellOk(y, subs', None) {
      assert ShellOk(y, w.t.subs, w.t.currentShellcode);
    }
  }

  /** The events that only move the pointers. */
  lemma PointerStep(w: World, e: Event)
    requires Inv(w) && Bracketed(w.env, e)
    requires e.DnsQueryAnswered? || e.DnsQueryStop? || e.Received? || e.Stop? || e.Sent?
    ensures Inv(Step(w, e)) && !Fails(w.t, e)
  {
    var k := if e.DnsQueryAnswered? then QueryKey(e.query)
             else if e.Received? || e.Sent? then SocketKey(e.socket) else Current(w.env);
    assert KeyOk(k, w.t.ctxs, w.env.alive, w.t.subs, w.owner);
    assert EntryOk(w.t.ctxs[k], w.t.attackOf, w.t.subs, w.owner);
  }

  /** The events that only need their context to exist. */
  lemma IdleStep(w: World, e: Event)
    requires Inv(w) && Bracketed(w.env, e)
    requires e.Connected? || e.Submission? || e.Timeout?
    ensures Step(w, e) == w && !Fails(w.t, e)
  {
    if !e.Timeout? {
      assert KeyOk(if e.Connected? then SocketKey(e.socket) else DownloadKey(e.download),
                   w.t.ctxs, w.env.alive, w.t.subs, w.owner);
    }
  }

  /** A new connection of attack a, which may have begun with it. */
  lemma JoinStep(w: World, t1: Tracker, socket: nat, a: nat)
    requires Inv(w) && !Handling(w.env) && SocketKey(socket) !in w.env.alive
    requires t1 == w.t || (t1 == WithNewAttack(w.t) && a == w.t.nextAttack)
    requires HeapInv(t1, w.owner) && a in t1.attacks
    ensures var t' := AddKeyed(t1, SocketKey(socket), SocketCtx, Some(a));
            Inv(World(t'.(currentAttack := Some(a), currentSocket := Some(w.t.nextSub)),
                      w.env.(alive := w.env.alive[SocketKey(socket) := Stream], bracket := InSocket(socket)),
                      w.owner[w.t.nextSub := a]))
  {
    var x, k := w.t.nextSub, SocketKey(socket);
    var t' := AddKeyed(t1, k, SocketCtx, Some(a));
    NextSubFresh(w.t, w.owner);
    AddSubHeap(t1, w.owner, SocketCtx, a);
    AddKeys(w.t.ctxs, w.env.alive, w.t.subs, w.owner, w.owner[x := a], k, Stream, x, Sub(SocketCtx, true));
    AddLive(w.t.attackOf, w.t.attacks.Keys, t'.attacks.Keys, x, a);
    var subs' := t'.subs;
    forall z: nat ensures ShellOk(z, subs', t'.currentShellcode) {
      assert ShellOk(z, w.t.subs, w.t.currentShellcode);
    }
  }

  /** A connection joins its listener's attack, or begins one. */
  lemma AcceptStep(w: World, parent: nat, socket: nat)
    requires Inv(w) && Bracketed(w.env, Accept(parent, socket))
    ensures Inv(Step(w, Accept(parent, socket))) && !Fails(w.t, Accept(parent, socket))
  {
    var p, k := SocketKey(parent), SocketKey(socket);
    assert KeyOk(p, w.t.ctxs, w.env.alive, w.t.subs, w.owner) && KeyOk(k, w.t.ctxs, w.env.alive, w.t.subs, w.owner);
    var y := w.t.ctxs[p];
    if y in w.t.attackOf {
      assert EntryOk(y, w.t.attackOf, w.t.subs, w.owner);
      assert OwnerOk(y, w.t.subs.Keys, w.t.attacks, w.owner, w.t.nextSub);
      JoinStep(w, w.t, socket, w.t.attackOf[y]);
    } else {
      NewAttackHeap(w.t, w.owner);
      JoinStep(w, WithNewAttack(w.t), socket, w.t.nextAttack);
    }
  }

  /** Another active sub-context of an attack means that an entry for it stays. */
  lemma OtherEntry(w: World, k: Key, a: nat)
    requires Inv(w) && k in w.t.ctxs && !Busy(w.env, k) && a in w.t.attacks
    requires w.t.ctxs[k] in w.t.subs && OtherActive(w.t, w.t.attacks[a], w.t.ctxs[k])
    ensures HasEntry(w.t.attackOf - {w.t.ctxs[k]}, a)
  {
    var x := w.t.ctxs[k];
    FlagsMember(Deactivated(w.t.subs, x), w.t.attacks[a]);
    var y :| y in w.t.attacks[a] && Active(Deactivated(w.t.subs, x), y);
    assert y != x && Active(w.t.subs, y);
    assert AttackOk(a, w.t.attacks, w.t.subs.Keys, w.owner, w.t.nextAttack);
    assert EntryOk(y, w.t.attackOf, w.t.subs, w.owner);
    if Tracked(w.t.subs, y) {
      assert (w.t.attackOf - {x})[y] == a;
    } else {
      assert ShellOk(y, w.t.subs, w.t.currentShellcode);
      CurrentAlive(w);
      var c := w.t.currentAttack.value;
      assert AttackOk(c, w.t.attacks, w.t.subs.Keys, w.owner, w.t.nextAttack);
      assert SameKey(k, Current(w.env), w.t.ctxs);
      assert (w.t.attackOf - {x})[w.t.ctxs[Current(w.env)]] == a;
    }
  }

  /** An attack that ends is not the current one, and does not own the shellcode being handled. */
  lemma EndedNotCurrent(w: World, k: Key, a: nat)
    requires Inv(w) && k in w.t.ctxs && !Busy(w.env, k) && a in w.t.attacks
    requires w.t.ctxs[k] in w.t.subs && w.t.ctxs[k] in w.t.attacks[a]
    requires !OtherActive(w.t, w.t.attacks[a], w.t.ctxs[k])
    ensures Handling(w.env) ==> w.t.currentAttack != Some(a)
  {
    if Handling(w.env) {
      CurrentAlive(w);
      var z := w.t.ctxs[Current(w.env)];
      assert SameKey(k, Current(w.env), w.t.ctxs);
      assert EntryOk(z, w.t.attackOf, w.t.subs, w.owner);
      assert OwnerOk(z, w.t.subs.Keys, w.t.attacks, w.owner, w.t.nextSub);
      InactiveList(w.t, w.t.attacks[a], w.t.ctxs[k]);
    }
  }

  /** What a bracket is about is untouched by the end of another key. */
  lemma KeepPointers(w: World, t': Tracker, k: Key)
    requires Inv(w) && k in w.t.ctxs && !Busy(w.env, k)
    requires t'.ctxs == w.t.ctxs - {k} && t'.attackOf == w.t.attackOf - {w.t.ctxs[k]}
    requires t'.currentAttack == w.t.currentAttack && t'.currentSocket == w.t.currentSocket
    ensures PointersInv(t', w.env.(alive := w.env.alive - {k}))
  {
    if Handling(w.env) {
      assert SameKey(k, Current(w.env), w.t.ctxs);
    }
  }

  lemma EndFreeShell(w: World, t': Tracker, k: Key)
    requires Inv(w) && k in w.t.ctxs
    requires t' == EndFree(w.t, k, w.t.ctxs[k])
    ensures ShellInv(t', w.env.(alive := w.env.alive - {k}))
  {
    assert KeyOk(k, w.t.ctxs, w.env.alive, w.t.subs, w.owner);
    KeepShell(w.t, t', w.env, w.env.(alive := w.env.alive - {k}));
  }

  lemma EndFreeStep(w: World, k: Key)
    requires Inv(w) && k in w.t.ctxs && !Busy(w.env, k)
    requires w.t.ctxs[k] in w.t.subs && w.t.ctxs[k] !in w.t.attackOf
    ensures Inv(World(EndFree(w.t, k, w.t.ctxs[k]), w.env.(alive := w.env.alive - {k}), w.owner))
  {
    var x := w.t.ctxs[k];
    var t', env' := EndFree(w.t, k, x), w.env.(alive := w.env.alive - {k});
    assert KeyOk(k, w.t.ctxs, w.env.alive, w.t.subs, w.owner) && EntryOk(x, w.t.attackOf, w.t.subs, w.owner);
    assert HeapInv(t', w.owner) by { EndFreeHeap(w.t, w.owner, k, x); }
    EndFreeKeys(w.t.ctxs, w.env.alive, w.t.subs, w.owner, k);
    assert LiveInv(t'.attackOf, t'.attacks.Keys) by { DropLive(w.t.attackOf, w.t.attacks.Keys, w.t.attacks.Keys, x); }
    EndFreeShell(w, t', k);
    KeepPointers(w, t', k);
  }

  lemma EndEarlyStep(w: World, k: Key)
    requires Inv(w) && k in w.t.ctxs && !Busy(w.env, k) && w.t.ctxs[k] in w.t.subs
    requires w.t.ctxs[k] in w.t.attackOf && w.t.attackOf[w.t.ctxs[k]] in w.t.attacks
    requires OtherActive(w.t, w.t.attacks[w.t.attackOf[w.t.ctxs[k]]], w.t.ctxs[k])
    ensures Inv(World(EndEarly(w.t, k, w.t.ctxs[k]), w.env.(alive := w.env.alive - {k}), w.owner))
  {
    var x := w.t.ctxs[k];
    var t', env' := EndEarly(w.t, k, x), w.env.(alive := w.env.alive - {k});
    assert KeyOk(k, w.t.ctxs, w.env.alive, w.t.subs, w.owner) && EntryOk(x, w.t.attackOf, w.t.subs, w.owner);
    EndEarlyHeap(w.t, w.owner, k, x);
    assert t'.subs.Keys == w.t.subs.Keys;
    EndKeys(w.t.ctxs, w.env.alive, w.t.subs, t'.subs, w.owner, k);
    OtherEntry(w, k, w.t.attackOf[x]);
    DropLive(w.t.attackOf, w.t.attacks.Keys, w.t.attacks.Keys, x);
    KeepShell(w.t, t', w.env, env');
    KeepPointers(w, t', k);
  }

  lemma EndLastKeys(w: World, k: Key, a: nat)
    requires Inv(w) && k in w.t.ctxs && w.t.ctxs[k] in w.t.subs && w.t.ctxs[k] in w.owner
    requires a in w.t.attacks && w.t.ctxs[k] in w.t.attacks[a] && !OtherActive(w.t, w.t.attacks[a], w.t.ctxs[k])
    ensures KeysInv(w.t.ctxs - {k}, w.env.alive - {k}, EndLast(w.t, k, w.t.ctxs[k], a).subs, w.owner)
  {
    InactiveList(w.t, w.t.attacks[a], w.t.ctxs[k]);
    EndKeys(w.t.ctxs, w.env.alive, w.t.subs, EndLast(w.t, k, w.t.ctxs[k], a).subs, w.owner, k);
  }

  lemma EndLastShell(w: World, t': Tracker, k: Key, a: nat)
    requires Inv(w) && k in w.t.ctxs && !Busy(w.env, k) && w.t.ctxs[k] in w.t.subs
    requires a in w.t.attacks && w.t.ctxs[k] in w.t.attacks[a] && !OtherActive(w.t, w.t.attacks[a], w.t.ctxs[k])
    requires t' == EndLast(w.t, k, w.t.ctxs[k], a)
    ensures ShellInv(t', w.env.(alive := w.env.alive - {k}))
  {
    assert KeyOk(k, w.t.ctxs, w.env.alive, w.t.subs, w.owner);
    InactiveList(w.t, w.t.attacks[a], w.t.ctxs[k]);
    EndedNotCurrent(w, k, a);
    KeepShell(w.t, t', w.env, w.env.(alive := w.env.alive - {k}));
  }

  lemma EndLastStep(w: World, k: Key)
    requires Inv(w) && k in w.t.ctxs && !Busy(w.env, k) && w.t.ctxs[k] in w.t.subs
    requires w.t.ctxs[k] in w.t.attackOf
    requires var a := w.t.attackOf[w.t.ctxs[k]];
             a in w.t.attacks && w.t.ctxs[k] in w.t.attacks[a] && !OtherActive(w.t, w.t.attacks[a], w.t.ctxs[k])
    ensures Inv(World(EndLast(w.t, k, w.t.ctxs[k], w.t.attackOf[w.t.ctxs[k]]),
                      w.env.(alive := w.env.alive - {k}), w.owner))
  {
    var x := w.t.ctxs[k];
    var a := w.t.attackOf[x];
    var list := w.t.attacks[a];
    var t', env' := EndLast(w.t, k, x, a), w.env.(alive := w.env.alive - {k});
    assert KeyOk(k, w.t.ctxs, w.env.alive, w.t.subs, w.owner) && EntryOk(x, w.t.attackOf, w.t.subs, w.owner);
    EndLastHeap(w.t, w.owner, k, x, a);
    EndLastKeys(w, k, a);
    assert t'.attacks.Keys == w.t.attacks.Keys - {a};
    DropLive(w.t.attackOf, w.t.attacks.Keys, t'.attacks.Keys, x);
    EndLastShell(w, t', k, a);
    KeepPointers(w, t', k);
  }

  /** The end of a socket, query or download that no bracket is about. */
  lemma RetireStep(w: World, k: Key)
    requires Inv(w) && !Busy(w.env, k)
    ensures Inv(World(Retire(w.t, k), w.env.(alive := w.env.alive - {k}), w.owner))
    ensures k in w.env.alive ==> k in w.t.ctxs && Alive(w.t, k)
    ensures k in w.env.alive && w.env.alive[k] != FreeListener ==> w.t.ctxs[k] in w.t.attackOf
  {
    assert KeyOk(k, w.t.ctxs, w.env.alive, w.t.subs, w.owner);
    if k in w.t.ctxs {
      var x := w.t.ctxs[k];
      RetireCases(w.t, k);
      assert EntryOk(x, w.t.attackOf, w.t.subs, w.owner);
      assert OwnerOk(x, w.t.subs.Keys, w.t.attacks, w.owner, w.t.nextSub);
      if x !in w.t.attackOf {
        EndFreeStep(w, k);
      } else if OtherActive(w.t, w.t.attacks[w.t.attackOf[x]], x) {
        EndEarlyStep(w, k);
      } else {
        EndLastStep(w, k);
      }
    } else {
      assert w.env.alive - {k} == w.env.alive;
    }
  }

  /** The events that make a sub-context for the current attack. */
  lemma CreateStep(w: World, e: Event)
    requires Inv(w) && Bracketed(w.env, e)
    requires e.DnsQueryCreated? || e.Download? || e.Bind? || e.ConnectRequest?
    ensures Inv(Step(w, e)) && !Fails(w.t, e)
  {
    match e
    case DnsQueryCreated(query) => AddStep(w, QueryKey(query), DNSCtx, Other);
    case Download(download) => CurrentAlive(w); AddStep(w, DownloadKey(download), DownloadCtx, Other);
    case Bind(socket) =>
      assert KeyRole(w, SocketKey(socket));
      if Handling(w.env) {
        AddStep(w, SocketKey(socket), SocketCtx, Listener);
      } else {
        AddFreeStep(w, SocketKey(socket));
      }
    case ConnectRequest(socket) =>
      assert KeyRole(w, SocketKey(socket));
      AddStep(w, SocketKey(socket), SocketCtx, Stream);
  }

  /** The events that end what a key stands for. */
  lemma DestroyStep(w: World, e: Event)
    requires Inv(w) && Bracketed(w.env, e)
    requires e.DnsQueryDestroyed? || e.DownloadDestroyed? || e.Close?
    ensures Inv(Step(w, e)) && !Fails(w.t, e)
  {
    var k := match e
      case DnsQueryDestroyed(query) => QueryKey(query)
      case DownloadDestroyed(download) => DownloadKey(download)
      case Close(socket) => SocketKey(socket);
    RetireStep(w, k);
    assert KeyRole(w, k);
  }

  lemma StepInv(w: World, e: Event)
    requires Inv(w) && Bracketed(w.env, e)
    ensures Inv(Step(w, e)) && !Fails(w.t, e)
  {
    match e
    case Shellcode => CurrentAlive(w); ShellcodeStep(w);
    case ShellcodeEnd => ShellcodeEndStep(w);
    case Accept(parent, socket) => AcceptStep(w, parent, socket);
    case DnsQueryCreated(_) => CreateStep(w, e);
    case Download(_) => CreateStep(w, e);
    case Bind(_) => CreateStep(w, e);
    case ConnectRequest(_) => CreateStep(w, e);
    case DnsQueryDestroyed(_) => DestroyStep(w, e);
    case DownloadDestroyed(_) => DestroyStep(w, e);
    case Close(_) => DestroyStep(w, e);
    case Connected(_) | Submission(_) | Timeout => IdleStep(w, e);
    case _ => PointerStep(w, e);
  }

  predicate KeyRole(w: World, k: Key) {
    KeyOk(k, w.t.ctxs, w.env.alive, w.t.subs, w.owner)
  }

  // ---------------------------------------------------------------- runs

  predicate AllBracketed(env: Env, events: seq<Event>)
    decreases |events|
  {
    events == [] || (Bracketed(env, events[0]) && AllBracketed(Next(env, events[0]), events[1..]))
  }

  function Run(w: World, events: seq<Event>): World
    decreases |events|
  {
    if events == [] then w else Run(Step(w, events[0]), events[1..])
  }

  /** No assertion of the code fails along the run. */
  predicate NeverFails(w: World, events: seq<Event>)
    decreases |events|
  {
    events == [] || (!Fails(w.t, events[0]) && NeverFails(Step(w, events[0]), events[1..]))
  }

  lemma {:induction false} RunInv(w: World, events: seq<Event>)
    requires Inv(w) && AllBracketed(w.env, events)
    ensures Inv(Run(w, events)) && NeverFails(w, events)
    decreases |events|
  {
    if events != [] {
      StepInv(w, events[0]);
      RunInv(Step(w, events[0]), events[1..]);
    }
  }

  lemma StartInv()
    ensures Inv(Start)
  {
  }
}
