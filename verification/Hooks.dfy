/**
 * The detour chains of sdk/Private/Hooks.cpp. Detours is reduced to what it does to code: attaching
 * patches a function's entry with a jump and hands out a fresh trampoline that still runs what the
 * entry ran before; detaching takes the patch away again.
 */
module Hooks {
  import opened Wrappers
  import opened StdAlgorithms

  /** A function by its address, and the variable a detour calls the next function through. */
  type Function = nat

  type Slot = nat

  datatype Trampoline = Trampoline(entry: Function, displaced: Option<Function>)

  datatype Hook = Hook(trampoline: nat, detour: Function, original: Slot)

  datatype Machine = Machine(patches: map<Function, Function>, trampolines: map<nat, Trampoline>, slots: map<Slot, nat>,
                             nextId: nat)

  /** What never changes: the address of every named function, and which slot each detour calls through. */
  datatype Program = Program(targets: map<string, Function>, code: map<Function, Slot>)

  function Displaced(m: Machine, f: Function): Option<Function> {
    if f in m.patches then Some(m.patches[f]) else None
  }

  function Attach(m: Machine, entry: Function, detour: Function, original: Slot): Machine {
    Machine(m.patches[entry := detour], m.trampolines[m.nextId := Trampoline(entry, Displaced(m, entry))],
            m.slots[original := m.nextId], m.nextId + 1)
  }

  function Detach(m: Machine, h: Hook): Machine {
    if h.trampoline !in m.trampolines then m
    else
      var t := m.trampolines[h.trampoline];
      m.(patches := if t.displaced.Some? then m.patches[t.entry := t.displaced.value] else m.patches - {t.entry},
         trampolines := m.trampolines - {h.trampoline})
  }

  // ----- running patched code -----

  /** The bodies a call runs, in order; none when it has not come to an end after `fuel` jumps. */
  function Call(p: Program, m: Machine, f: Function, fuel: nat): Option<seq<Function>>
    decreases fuel, 1
  {
    if fuel == 0 then None
    else if f in m.patches then Call(p, m, m.patches[f], fuel - 1)
    else Body(p, m, f, fuel)
  }

  /** A detour runs and calls through its slot once; any other function just runs. */
  function Body(p: Program, m: Machine, f: Function, fuel: nat): Option<seq<Function>>
    decreases fuel, 0
  {
    if f !in p.code then Some([f])
    else if p.code[f] !in m.slots || fuel == 0 then None
    else match Through(p, m, m.slots[p.code[f]], fuel - 1)
         case None => None
         case Some(rest) => Some([f] + rest)
  }

  function Through(p: Program, m: Machine, trampoline: nat, fuel: nat): Option<seq<Function>>
    decreases fuel, 2
  {
    if trampoline !in m.trampolines then None
    else
      var t := m.trampolines[trampoline];
      if t.displaced.Some? then Call(p, m, t.displaced.value, fuel) else Body(p, m, t.entry, fuel)
  }

  // ----- chains -----

  function HooksOf(all: map<string, seq<Hook>>, name: string): seq<Hook> {
    if name in all then all[name] else []
  }

  /** The function the `i`-th hook is attached to: the target, or the detour of the hook before. */
  function Before(target: Function, hooks: seq<Hook>, i: nat): Function
    requires i <= |hooks|
  {
    if i == 0 then target else hooks[i - 1].detour
  }

  predicate IsAttached(p: Program, m: Machine, entry: Function, h: Hook) {
    entry in m.patches && m.patches[entry] == h.detour &&
    h.trampoline in m.trampolines && m.trampolines[h.trampoline] == Trampoline(entry, None) &&
    h.detour in p.code && p.code[h.detour] == h.original &&
    h.original in m.slots && m.slots[h.original] == h.trampoline
  }

  predicate IsChain(p: Program, m: Machine, target: Function, hooks: seq<Hook>) {
    target !in p.code && Before(target, hooks, |hooks|) !in m.patches &&
    forall i :: 0 <= i < |hooks| ==> IsAttached(p, m, Before(target, hooks, i), hooks[i])
  }

  function Detours(hooks: seq<Hook>): seq<Function> {
    seq(|hooks|, i requires 0 <= i < |hooks| => hooks[i].detour)
  }

  /** The first `i` detours, newest first, and the original at the end: the documented order. */
  function Order(target: Function, hooks: seq<Hook>, i: nat): seq<Function>
    requires i <= |hooks|
  {
    if i == 0 then [target] else [hooks[i - 1].detour] + Order(target, hooks, i - 1)
  }

  lemma {:induction false} OrderIsReversed(target: Function, hooks: seq<Hook>, i: nat, k: nat)
    requires k <= i <= |hooks|
    ensures |Order(target, hooks, i)| == i + 1
    ensures Order(target, hooks, i)[k] == if k == i then target else hooks[i - 1 - k].detour
  {
    if i > 0 { OrderIsReversed(target, hooks, i - 1, if k == 0 then 0 else k - 1); }
  }

  lemma {:induction false} BodiesInOrder(p: Program, m: Machine, target: Function, hooks: seq<Hook>, i: nat, fuel: nat)
    requires IsChain(p, m, target, hooks) && i <= |hooks| && fuel >= i
    ensures Body(p, m, Before(target, hooks, i), fuel) == Some(Order(target, hooks, i))
  {
    if i > 0 {
      assert IsAttached(p, m, Before(target, hooks, i - 1), hooks[i - 1]);
      BodiesInOrder(p, m, target, hooks, i - 1, fuel - 1);
    }
  }

  lemma {:induction false} EntryLeadsToNewest(p: Program, m: Machine, target: Function, hooks: seq<Hook>, i: nat,
                                              fuel: nat)
    requires IsChain(p, m, target, hooks) && i <= |hooks| && fuel >= |hooks| - i + 1
    ensures Call(p, m, Before(target, hooks, i), fuel)
            == Body(p, m, Before(target, hooks, |hooks|), fuel - (|hooks| - i))
    decreases |hooks| - i
  {
    if i < |hooks| {
      assert IsAttached(p, m, Before(target, hooks, i), hooks[i]);
      EntryLeadsToNewest(p, m, target, hooks, i + 1, fuel - 1);
    }
  }

  /** Calling a hooked function runs the detours newest to oldest and then the original once. */
  lemma CallRunsNewestFirst(p: Program, m: Machine, target: Function, hooks: seq<Hook>, fuel: nat)
    requires IsChain(p, m, target, hooks) && fuel >= 2 * |hooks| + 1
    ensures Call(p, m, target, fuel) == Some(Order(target, hooks, |hooks|))
  {
    EntryLeadsToNewest(p, m, target, hooks, 0, fuel);
    BodiesInOrder(p, m, target, hooks, |hooks|, fuel - |hooks|);
  }

  /** What a live hook's own slot reaches: exactly the hooks older than it, and then the original. */
  lemma OriginalReachesNextOlder(p: Program, m: Machine, target: Function, hooks: seq<Hook>, i: nat, fuel: nat)
    requires IsChain(p, m, target, hooks) && i < |hooks| && fuel >= i
    ensures hooks[i].original in m.slots
    ensures Through(p, m, m.slots[hooks[i].original], fuel) == Some(Order(target, hooks, i))
  {
    assert IsAttached(p, m, Before(target, hooks, i), hooks[i]);
    BodiesInOrder(p, m, target, hooks, i, fuel);
  }

  // ----- hooking a function twice with one detour -----

  lemma {:induction false} ClosedNeverReturns(p: Program, m: Machine, f: Function, nodes: set<Function>, fuel: nat)
    requires f in nodes && forall g :: g in nodes ==> g in m.patches && m.patches[g] in nodes
    ensures Call(p, m, f, fuel) == None
    decreases fuel
  {
    if fuel > 0 { ClosedNeverReturns(p, m, m.patches[f], nodes, fuel - 1); }
  }

  lemma BeforeEnds(target: Function, hooks: seq<Hook>, k: nat)
    requires k < |hooks|
    ensures Before(target, hooks, 0) == target
    ensures forall i :: 0 <= i < |hooks| ==> Before(target, hooks, i + 1) == hooks[i].detour
  {
  }

  /** Hooking a function again with a detour still live on it closes a loop of jumps: no call returns. */
  lemma RehookNeverReturns(p: Program, m: Machine, target: Function, hooks: seq<Hook>, k: nat, original: Slot,
                           fuel: nat)
    requires IsChain(p, m, target, hooks) && k < |hooks|
    ensures Call(p, Attach(m, Before(target, hooks, |hooks|), hooks[k].detour, original), target, fuel) == None
  {
    hide Call, Before;
    var after := Attach(m, Before(target, hooks, |hooks|), hooks[k].detour, original);
    BeforeEnds(target, hooks, k);
    var nodes := set i | 0 <= i <= |hooks| :: Before(target, hooks, i);
    forall g | g in nodes
      ensures g in after.patches && after.patches[g] in nodes
    {
      var i :| 0 <= i <= |hooks| && g == Before(target, hooks, i);
      if g == Before(target, hooks, |hooks|) {
        assert Before(target, hooks, k + 1) in nodes;
      } else {
        assert IsAttached(p, m, Before(target, hooks, i), hooks[i]);
        assert Before(target, hooks, i + 1) in nodes;
      }
    }
    assert Before(target, hooks, 0) in nodes;
    ClosedNeverReturns(p, after, target, nodes, fuel);
  }

  // ----- all chains together -----

  predicate IsAt(p: Program, all: map<string, seq<Hook>>, name: string, i: nat) {
    name in p.targets && i <= |HooksOf(all, name)|
  }

  /** The target of a name and the detours hooked to it, as one numbered list. */
  function Node(p: Program, all: map<string, seq<Hook>>, name: string, i: nat): Function
    requires IsAt(p, all, name, i)
  {
    Before(p.targets[name], HooksOf(all, name), i)
  }

  ghost predicate AreDistinct(p: Program, all: map<string, seq<Hook>>) {
    forall f, i: nat, g, j: nat :: IsAt(p, all, f, i) && IsAt(p, all, g, j) && Node(p, all, f, i) == Node(p, all, g, j)
                                   ==> f == g && i == j
  }

  ghost predicate IsNode(p: Program, all: map<string, seq<Hook>>, x: Function) {
    exists f, i: nat :: IsAt(p, all, f, i) && Node(p, all, f, i) == x
  }

  predicate AreNumbered(m: Machine, hooks: seq<Hook>) {
    forall i :: 0 <= i < |hooks| ==> hooks[i].trampoline < m.nextId
  }

  predicate OwnSlots(p: Program) {
    forall d, e :: d in p.code && e in p.code && p.code[d] == p.code[e] ==> d == e
  }

  ghost predicate IsValid(p: Program, m: Machine, all: map<string, seq<Hook>>) {
    OwnSlots(p) && AreDistinct(p, all) && (forall x :: x in m.patches ==> IsNode(p, all, x)) &&
    (forall name :: name in p.targets ==> IsChain(p, m, p.targets[name], HooksOf(all, name))) &&
    (forall name :: name in p.targets ==> AreNumbered(m, HooksOf(all, name)))
  }

  /** A detour that can join: it calls through this slot, and is neither hooked anywhere nor a target. */
  ghost predicate CanHook(p: Program, all: map<string, seq<Hook>>, detour: Function, original: Slot) {
    detour in p.code && p.code[detour] == original && !IsNode(p, all, detour)
  }

  /** A chain does not notice changes to the machine that stay off its own entries, slots and trampolines. */
  lemma ChainFrame(p: Program, m: Machine, after: Machine, target: Function, hooks: seq<Hook>)
    requires IsChain(p, m, target, hooks)
    requires forall i :: 0 <= i <= |hooks| ==>
             Displaced(after, Before(target, hooks, i)) == Displaced(m, Before(target, hooks, i))
    requires forall i :: 0 <= i < |hooks| ==>
               var h := hooks[i];
               (h.original in m.slots ==>
                h.original in after.slots && after.slots[h.original] == m.slots[h.original]) &&
               (h.trampoline in m.trampolines ==>
                  h.trampoline in after.trampolines && after.trampolines[h.trampoline] == m.trampolines[h.trampoline])
    ensures IsChain(p, after, target, hooks)
  {
    hide Before;
    forall i | 0 <= i < |hooks|
      ensures IsAttached(p, after, Before(target, hooks, i), hooks[i])
    {
      assert IsAttached(p, m, Before(target, hooks, i), hooks[i]);
      assert Displaced(after, Before(target, hooks, i)) == Displaced(m, Before(target, hooks, i));
    }
  }

  function Hooked(all: map<string, seq<Hook>>, name: string, h: Hook): map<string, seq<Hook>> {
    all[name := HooksOf(all, name) + [h]]
  }

  lemma NodeAfterHook(p: Program, all: map<string, seq<Hook>>, name: string, h: Hook, f: string, i: nat)
    requires name in p.targets
    ensures IsAt(p, Hooked(all, name, h), f, i) <==>
            IsAt(p, all, f, i) || (f == name && i == |HooksOf(all, name)| + 1)
    ensures IsAt(p, all, f, i) ==> Node(p, Hooked(all, name, h), f, i) == Node(p, all, f, i)
    ensures f == name && i == |HooksOf(all, name)| + 1 ==> Node(p, Hooked(all, name, h), f, i) == h.detour
  {
  }

  lemma StillDistinct(p: Program, all: map<string, seq<Hook>>, name: string, h: Hook)
    requires name in p.targets && AreDistinct(p, all) && !IsNode(p, all, h.detour)
    ensures AreDistinct(p, Hooked(all, name, h))
    ensures forall x :: IsNode(p, Hooked(all, name, h), x) <==> IsNode(p, all, x) || x == h.detour
  {
    hide IsAt, Node, Hooked;
    var more := Hooked(all, name, h);
    forall f, i: nat
      ensures IsAt(p, more, f, i) <==> IsAt(p, all, f, i) || (f == name && i == |HooksOf(all, name)| + 1)
      ensures IsAt(p, all, f, i) ==> Node(p, more, f, i) == Node(p, all, f, i)
      ensures f == name && i == |HooksOf(all, name)| + 1 ==> Node(p, more, f, i) == h.detour
    {
      NodeAfterHook(p, all, name, h, f, i);
    }
    forall x
      ensures IsNode(p, more, x) <==> IsNode(p, all, x) || x == h.detour
    {
      if x == h.detour { assert Node(p, more, name, |HooksOf(all, name)| + 1) == x; }
      if IsNode(p, all, x) {
        var f, i: nat :| IsAt(p, all, f, i) && Node(p, all, f, i) == x;
        assert IsAt(p, more, f, i) && Node(p, more, f, i) == x;
      }
    }
  }

  lemma BeforeAfterHook(target: Function, hooks: seq<Hook>, h: Hook, i: nat)
    requires i <= |hooks| + 1
    ensures Before(target, hooks + [h], i) == if i <= |hooks| then Before(target, hooks, i) else h.detour
  {
  }

  /** A new detour on the newest function of the chain is the chain with one more hook. */
  lemma ChainGrows(p: Program, m: Machine, target: Function, hooks: seq<Hook>, detour: Function, original: Slot)
    requires IsChain(p, m, target, hooks) && detour !in m.patches && detour in p.code && p.code[detour] == original
    requires detour != Before(target, hooks, |hooks|)
    requires forall i :: 0 <= i < |hooks| ==> Before(target, hooks, i) != Before(target, hooks, |hooks|)
    requires forall i :: 0 <= i < |hooks| ==> hooks[i].original != original && hooks[i].trampoline < m.nextId
    ensures IsChain(p, Attach(m, Before(target, hooks, |hooks|), detour, original), target,
                    hooks + [Hook(m.nextId, detour, original)])
  {
    hide Before;
    var h := Hook(m.nextId, detour, original);
    var after := Attach(m, Before(target, hooks, |hooks|), detour, original);
    BeforeAfterHook(target, hooks, h, |hooks| + 1);
    forall i | 0 <= i <= |hooks|
      ensures IsAttached(p, after, Before(target, hooks + [h], i), (hooks + [h])[i])
    {
      BeforeAfterHook(target, hooks, h, i);
      if i < |hooks| { assert IsAttached(p, m, Before(target, hooks, i), hooks[i]); }
    }
  }

  lemma NewDetourIsApart(p: Program, m: Machine, all: map<string, seq<Hook>>, name: string, detour: Function,
                         original: Slot)
    requires IsValid(p, m, all) && name in p.targets && CanHook(p, all, detour, original)
    ensures detour !in m.patches && detour in p.code && p.code[detour] == original
    ensures detour != Before(p.targets[name], HooksOf(all, name), |HooksOf(all, name)|)
    ensures Before(p.targets[name], HooksOf(all, name), |HooksOf(all, name)|) !in m.patches
  {
    assert IsAt(p, all, name, |HooksOf(all, name)|);
    assert Node(p, all, name, |HooksOf(all, name)|) != detour;
  }

  /** Hooking `name` touches no other entry, slot or trampoline of the chain of `other`. */
  lemma OthersKeepApart(p: Program, m: Machine, all: map<string, seq<Hook>>, name: string, other: string,
                        detour: Function, original: Slot)
    requires IsValid(p, m, all) && name in p.targets && other in p.targets && CanHook(p, all, detour, original)
    ensures forall i: nat :: i < |HooksOf(all, other)| ==>
              HooksOf(all, other)[i].original != original && HooksOf(all, other)[i].trampoline < m.nextId
    ensures forall i: nat :: i <= |HooksOf(all, other)| && (other != name || i < |HooksOf(all, name)|) ==>
              Before(p.targets[other], HooksOf(all, other), i)
              != Before(p.targets[name], HooksOf(all, name), |HooksOf(all, name)|)
  {
    var hooks, last := HooksOf(all, other), |HooksOf(all, name)|;
    forall i: nat | i < |hooks|
      ensures hooks[i].original != original && hooks[i].trampoline < m.nextId
    {
      assert IsAttached(p, m, Before(p.targets[other], hooks, i), hooks[i]);
      assert AreNumbered(m, hooks);
      assert IsAt(p, all, other, i + 1) && Node(p, all, other, i + 1) == hooks[i].detour;
    }
    forall i: nat | i <= |hooks| && (other != name || i < last)
      ensures Before(p.targets[other], hooks, i) != Before(p.targets[name], HooksOf(all, name), last)
    {
      assert IsAt(p, all, other, i) && IsAt(p, all, name, last);
      assert Node(p, all, other, i) != Node(p, all, name, last);
    }
  }

  /** Setting a hook keeps every chain. */
  lemma HookKeepsValid(p: Program, m: Machine, all: map<string, seq<Hook>>, name: string, detour: Function,
                       original: Slot)
    requires IsValid(p, m, all) && name in p.targets && CanHook(p, all, detour, original)
    ensures var hooks := HooksOf(all, name);
            IsValid(p, Attach(m, Before(p.targets[name], hooks, |hooks|), detour, original),
                    Hooked(all, name, Hook(m.nextId, detour, original)))
  {
    hide CanHook, AreDistinct, IsNode, IsChain, Before;
    var target, hooks, h := p.targets[name], HooksOf(all, name), Hook(m.nextId, detour, original);
    var after, more := Attach(m, Before(target, hooks, |hooks|), detour, original), Hooked(all, name, h);
    CanHookMeans(p, all, name, detour, original);
    StillDistinct(p, all, name, h);
    NewDetourIsApart(p, m, all, name, detour, original);
    OthersKeepApart(p, m, all, name, name, detour, original);
    ChainGrows(p, m, target, hooks, detour, original);
    forall other | other in p.targets
      ensures IsChain(p, after, p.targets[other], HooksOf(more, other)) && AreNumbered(after, HooksOf(more, other))
    {
      if other != name {
        OthersKeepApart(p, m, all, name, other, detour, original);
        ChainFrame(p, m, after, p.targets[other], HooksOf(all, other));
      }
    }
  }

  lemma CanHookMeans(p: Program, all: map<string, seq<Hook>>, name: string, detour: Function, original: Slot)
    requires name in p.targets && CanHook(p, all, detour, original)
    ensures !IsNode(p, all, detour)
    ensures IsNode(p, all, Before(p.targets[name], HooksOf(all, name), |HooksOf(all, name)|))
  {
    assert IsAt(p, all, name, |HooksOf(all, name)|);
    assert Node(p, all, name, |HooksOf(all, name)|)
           == Before(p.targets[name], HooksOf(all, name), |HooksOf(all, name)|);
  }

  // ----- exactly when a further hook keeps the documented order -----

  /** A call of any named function that is long enough runs its detours newest first, then the original. */
  ghost predicate FollowsOrder(p: Program, m: Machine, all: map<string, seq<Hook>>) {
    forall f :: f in p.targets ==>
      exists fuel: nat ::
        Call(p, m, p.targets[f], fuel) == Some(Order(p.targets[f], HooksOf(all, f), |HooksOf(all, f)|))
  }

  lemma ValidFollowsOrder(p: Program, m: Machine, all: map<string, seq<Hook>>)
    requires IsValid(p, m, all)
    ensures FollowsOrder(p, m, all)
  {
    hide AreDistinct, IsNode, IsChain, Call, Order;
    forall f | f in p.targets
      ensures exists fuel: nat ::
                Call(p, m, p.targets[f], fuel) == Some(Order(p.targets[f], HooksOf(all, f), |HooksOf(all, f)|))
    {
      CallRunsNewestFirst(p, m, p.targets[f], HooksOf(all, f), 2 * |HooksOf(all, f)| + 1);
    }
  }

  predicate LastIs(trace: Option<seq<Function>>, x: Function) {
    trace.Some? ==> trace.value != [] && trace.value[|trace.value| - 1] == x
  }

  /** Whatever comes of running this body, or of calling this function: if it ends, it ends in `x`. */
  ghost predicate BodyEndsIn(p: Program, m: Machine, f: Function, x: Function) {
    forall fuel: nat :: LastIs(Body(p, m, f, fuel), x)
  }

  ghost predicate CallEndsIn(p: Program, m: Machine, f: Function, x: Function) {
    forall fuel: nat :: LastIs(Call(p, m, f, fuel), x)
  }

  /** The detour's slot leads to the body of the function it is attached to. */
  predicate LeadsTo(p: Program, m: Machine, detour: Function, entry: Function) {
    detour in p.code && p.code[detour] in m.slots && m.slots[p.code[detour]] in m.trampolines &&
    m.trampolines[m.slots[p.code[detour]]] == Trampoline(entry, None)
  }

  lemma BodyFollows(p: Program, m: Machine, detour: Function, entry: Function, x: Function)
    requires LeadsTo(p, m, detour, entry) && BodyEndsIn(p, m, entry, x)
    ensures BodyEndsIn(p, m, detour, x)
  {
    forall fuel: nat
      ensures LastIs(Body(p, m, detour, fuel), x)
    {
      if fuel > 0 { assert LastIs(Body(p, m, entry, fuel - 1), x); }
    }
  }

  lemma CallFollows(p: Program, m: Machine, f: Function, x: Function)
    requires if f in m.patches then CallEndsIn(p, m, m.patches[f], x) else BodyEndsIn(p, m, f, x)
    ensures CallEndsIn(p, m, f, x)
  {
    forall fuel: nat
      ensures LastIs(Call(p, m, f, fuel), x)
    {
      if f in m.patches {
        if fuel > 0 { assert LastIs(Call(p, m, m.patches[f], fuel - 1), x); }
      } else {
        assert LastIs(Body(p, m, f, fuel), x);
      }
    }
  }

  /** Along a chain, from function number `from` on, every body ends where that one does. */
  lemma {:induction false} BodiesEndAlike(p: Program, m: Machine, target: Function, hooks: seq<Hook>, from: nat, i: nat,
                                          x: Function)
    requires from <= i <= |hooks| && BodyEndsIn(p, m, Before(target, hooks, from), x)
    requires forall k :: from <= k < i ==> LeadsTo(p, m, hooks[k].detour, Before(target, hooks, k))
    ensures BodyEndsIn(p, m, Before(target, hooks, i), x)
    decreases i
  {
    hide BodyEndsIn, LeadsTo;
    if i > from {
      BodiesEndAlike(p, m, target, hooks, from, i - 1, x);
      BodyFollows(p, m, hooks[i - 1].detour, Before(target, hooks, i - 1), x);
    }
  }

  /** The newest detour is not patched, and every earlier function of the chain is, by the next one. */
  ghost predicate IsPatched(m: Machine, target: Function, hooks: seq<Hook>) {
    Displaced(m, Before(target, hooks, |hooks|)) == None &&
    forall k :: 0 <= k < |hooks| ==> Displaced(m, Before(target, hooks, k)) == Some(hooks[k].detour)
  }

  lemma PatchedStep(m: Machine, target: Function, hooks: seq<Hook>, i: nat)
    requires IsPatched(m, target, hooks) && i <= |hooks|
    ensures var f := Before(target, hooks, i);
            if i == |hooks| then f !in m.patches
            else f in m.patches && m.patches[f] == Before(target, hooks, i + 1)
  {
    assert i < |hooks| ==> Displaced(m, Before(target, hooks, i)) == Some(hooks[i].detour);
  }

  lemma {:induction false} CallsEndAlike(p: Program, m: Machine, target: Function, hooks: seq<Hook>, i: nat,
                                         x: Function)
    requires i <= |hooks| && BodyEndsIn(p, m, Before(target, hooks, |hooks|), x)
    requires IsPatched(m, target, hooks)
    ensures CallEndsIn(p, m, Before(target, hooks, i), x)
    decreases |hooks| - i
  {
    hide BodyEndsIn, CallEndsIn, IsPatched, Before;
    PatchedStep(m, target, hooks, i);
    if i < |hooks| { CallsEndAlike(p, m, target, hooks, i + 1, x); }
    CallFollows(p, m, Before(target, hooks, i), x);
  }

  /** Attaching leaves every other hook of a chain leading where it led. */
  lemma StillLeads(p: Program, m: Machine, target: Function, hooks: seq<Hook>, k: nat, entry: Function,
                   detour: Function)
    requires IsChain(p, m, target, hooks) && AreNumbered(m, hooks) && OwnSlots(p) && k < |hooks|
    requires detour in p.code && hooks[k].detour != detour
    ensures LeadsTo(p, Attach(m, entry, detour, p.code[detour]), hooks[k].detour, Before(target, hooks, k))
  {
    hide Before;
    assert IsAttached(p, m, Before(target, hooks, k), hooks[k]);
  }

  lemma NodesDiffer(p: Program, all: map<string, seq<Hook>>, f: string, i: nat, g: string, j: nat)
    requires AreDistinct(p, all) && IsAt(p, all, f, i) && IsAt(p, all, g, j) && (f != g || i != j)
    ensures Before(p.targets[f], HooksOf(all, f), i) != Before(p.targets[g], HooksOf(all, g), j)
  {
    assert Node(p, all, f, i) == Before(p.targets[f], HooksOf(all, f), i);
    assert Node(p, all, g, j) == Before(p.targets[g], HooksOf(all, g), j);
  }

  /** After hooking `name` with a detour live on `other`, that detour's body goes on to the original of `name`. */
  lemma SharedBodyEndsInName(p: Program, m: Machine, all: map<string, seq<Hook>>, name: string, other: string, q: nat)
    requires IsValid(p, m, all) && name in p.targets && other in p.targets && other != name
    requires q < |HooksOf(all, other)|
    ensures var hooks, d := HooksOf(all, name), HooksOf(all, other)[q].detour;
            d in p.code &&
            BodyEndsIn(p, Attach(m, Before(p.targets[name], hooks, |hooks|), d, p.code[d]), d, p.targets[name])
  {
    hide AreDistinct, IsNode, IsChain, BodyEndsIn, LeadsTo;
    var target, hooks, others := p.targets[name], HooksOf(all, name), HooksOf(all, other);
    var d, newest := others[q].detour, Before(target, hooks, |hooks|);
    AttachedHook(p, m, p.targets[other], others, q);
    var after := Attach(m, newest, d, p.code[d]);
    OriginalEndsInItself(p, m, after, target, hooks);
    forall k | 0 <= k < |hooks|
      ensures LeadsTo(p, after, hooks[k].detour, Before(target, hooks, k))
    {
      NodesDiffer(p, all, name, k + 1, other, q + 1);
      StillLeads(p, m, target, hooks, k, newest, d);
    }
    BodiesEndAlike(p, after, target, hooks, 0, |hooks|, target);
    NewSlotLeads(p, m, target, hooks, d);
    BodyFollows(p, after, d, newest, target);
  }

  lemma OriginalEndsInItself(p: Program, m: Machine, after: Machine, target: Function, hooks: seq<Hook>)
    requires IsChain(p, m, target, hooks)
    ensures BodyEndsIn(p, after, Before(target, hooks, 0), target)
  {
  }

  lemma NewSlotLeads(p: Program, m: Machine, target: Function, hooks: seq<Hook>, d: Function)
    requires IsChain(p, m, target, hooks) && d in p.code
    ensures var newest := Before(target, hooks, |hooks|);
            LeadsTo(p, Attach(m, newest, d, p.code[d]), d, newest)
  {
  }

  /** So every call of `other` that ends, ends in the original of `name`: its own original never runs. */
  lemma SharedCallEndsInName(p: Program, m: Machine, all: map<string, seq<Hook>>, name: string, other: string, q: nat)
    requires IsValid(p, m, all) && name in p.targets && other in p.targets && other != name
    requires q < |HooksOf(all, other)|
    ensures var hooks, d := HooksOf(all, name), HooksOf(all, other)[q].detour;
            d in p.code &&
            CallEndsIn(p, Attach(m, Before(p.targets[name], hooks, |hooks|), d, p.code[d]), p.targets[other],
                       p.targets[name])
  {
    hide AreDistinct, IsNode, IsChain, BodyEndsIn, LeadsTo, CallEndsIn;
    var hooks, target, others := HooksOf(all, name), p.targets[other], HooksOf(all, other);
    var d, newest := others[q].detour, Before(p.targets[name], hooks, |hooks|);
    SharedBodyEndsInName(p, m, all, name, other, q);
    var after := Attach(m, newest, d, p.code[d]);
    forall k | q < k < |others|
      ensures LeadsTo(p, after, others[k].detour, Before(target, others, k))
    {
      NodesDiffer(p, all, other, k + 1, other, q + 1);
      StillLeads(p, m, target, others, k, newest, d);
    }
    BodiesEndAlike(p, after, target, others, q + 1, |others|, p.targets[name]);
    forall k: nat | k <= |others|
      ensures Displaced(after, Before(target, others, k)) == Displaced(m, Before(target, others, k))
    {
      NodesDiffer(p, all, other, k, name, |hooks|);
    }
    ChainIsPatched(p, m, target, others);
    CallsEndAlike(p, after, target, others, 0, p.targets[name]);
  }

  lemma ChainIsPatched(p: Program, m: Machine, target: Function, hooks: seq<Hook>)
    requires IsChain(p, m, target, hooks)
    ensures IsPatched(m, target, hooks)
  {
    hide Before;
    forall k | 0 <= k < |hooks|
      ensures Displaced(m, Before(target, hooks, k)) == Some(hooks[k].detour)
    {
      assert IsAttached(p, m, Before(target, hooks, k), hooks[k]);
    }
  }

  lemma OrderEndsInTarget(target: Function, hooks: seq<Hook>)
    ensures LastIs(Some(Order(target, hooks, |hooks|)), target)
  {
    OrderIsReversed(target, hooks, |hooks|, |hooks|);
  }

  /** A live detour, hooked once more on any function, breaks the order of the function it is live on. */
  lemma LiveDetourBreaksOrder(p: Program, m: Machine, all: map<string, seq<Hook>>, name: string, detour: Function)
    requires IsValid(p, m, all) && name in p.targets && detour in p.code && IsNode(p, all, detour)
    ensures var hooks := HooksOf(all, name);
            !FollowsOrder(p, Attach(m, Before(p.targets[name], hooks, |hooks|), detour, p.code[detour]),
                          Hooked(all, name, Hook(m.nextId, detour, p.code[detour])))
  {
    hide AreDistinct, IsChain, Call, Order, Attach, CallEndsIn;
    var hooks, h := HooksOf(all, name), Hook(m.nextId, detour, p.code[detour]);
    var after, more := Attach(m, Before(p.targets[name], hooks, |hooks|), detour, p.code[detour]), Hooked(all, name, h);
    var f, i: nat :| IsAt(p, all, f, i) && Node(p, all, f, i) == detour;
    if i == 0 {
      TargetIsNoDetour(p, m, p.targets[f], HooksOf(all, f));
      assert false;
    }
    forall fuel: nat
      ensures Call(p, after, p.targets[f], fuel) != Some(Order(p.targets[f], HooksOf(more, f), |HooksOf(more, f)|))
    {
      if f == name {
        RehookNeverReturns(p, m, p.targets[name], hooks, i - 1, p.code[detour], fuel);
      } else {
        SharedCallEndsInName(p, m, all, name, f, i - 1);
        CallEndsMeans(p, after, p.targets[f], p.targets[name], fuel);
        OrderEndsInTarget(p.targets[f], HooksOf(all, f));
        NodesDiffer(p, all, f, 0, name, 0);
      }
    }
  }

  lemma CallEndsMeans(p: Program, m: Machine, f: Function, x: Function, fuel: nat)
    requires CallEndsIn(p, m, f, x)
    ensures LastIs(Call(p, m, f, fuel), x)
  {
  }

  lemma TargetIsNoDetour(p: Program, m: Machine, target: Function, hooks: seq<Hook>)
    requires IsChain(p, m, target, hooks)
    ensures Before(target, hooks, 0) !in p.code
  {
  }

  /**
   * Exactly when setting a hook keeps the documented order of all functions: when the detour, which
   * calls through the given slot, is not live already, neither on this function nor on any other.
   */
  lemma HookKeepsOrderIff(p: Program, m: Machine, all: map<string, seq<Hook>>, name: string, detour: Function,
                          original: Slot)
    requires IsValid(p, m, all) && name in p.targets && detour in p.code && p.code[detour] == original
    ensures var hooks := HooksOf(all, name);
            FollowsOrder(p, Attach(m, Before(p.targets[name], hooks, |hooks|), detour, original),
                         Hooked(all, name, Hook(m.nextId, detour, original)))
            <==> !IsNode(p, all, detour)
  {
    hide IsValid, IsNode, FollowsOrder, Attach, Hooked, Before;
    if IsNode(p, all, detour) {
      LiveDetourBreaksOrder(p, m, all, name, detour);
    } else {
      var hooks := HooksOf(all, name);
      HookKeepsValid(p, m, all, name, detour, original);
      ValidFollowsOrder(p, Attach(m, Before(p.targets[name], hooks, |hooks|), detour, original),
                        Hooked(all, name, Hook(m.nextId, detour, original)));
    }
  }

  /** Two functions hooked with one detour: a call of the first runs the original of the second. */
  lemma SharedDetourMisleads(p: Program, a: Function, b: Function, d: Function, fuel: nat)
    requires a != b && a !in p.code && b !in p.code && d in p.code && fuel >= 3
    ensures var m0 := Machine(map[], map[], map[], 0);
            Call(p, Attach(Attach(m0, a, d, p.code[d]), b, d, p.code[d]), a, fuel) == Some([d, b])
  {
    var m0 := Machine(map[], map[], map[], 0);
    var m := Attach(Attach(m0, a, d, p.code[d]), b, d, p.code[d]);
    assert Body(p, m, b, fuel - 2) == Some([b]);
    assert Through(p, m, m.slots[p.code[d]], fuel - 2) == Some([b]);
    assert Body(p, m, d, fuel - 1) == Some([d] + [b]);
    assert d !in m.patches && m.patches[a] == d;
    assert Call(p, m, d, fuel - 1) == Body(p, m, d, fuel - 1);
    assert [d] + [b] == [d, b];
  }

  // ----- taking a chain apart -----

  function DetachFirst(m: Machine, hooks: seq<Hook>, i: nat): Machine
    requires i <= |hooks|
  {
    if i == 0 then m else Detach(DetachFirst(m, hooks, i - 1), hooks[i - 1])
  }

  function Entries(target: Function, hooks: seq<Hook>, i: nat): set<Function>
    requires i <= |hooks|
  {
    set k | 0 <= k < i :: Before(target, hooks, k)
  }

  function TrampolinesOf(hooks: seq<Hook>, i: nat): set<nat>
    requires i <= |hooks|
  {
    set k | 0 <= k < i :: hooks[k].trampoline
  }

  predicate HasDistinctNodes(target: Function, hooks: seq<Hook>) {
    forall i, j :: 0 <= i < j <= |hooks| ==> Before(target, hooks, i) != Before(target, hooks, j)
  }

  lemma {:induction false} DetachRemoves(p: Program, m: Machine, target: Function, hooks: seq<Hook>, i: nat)
    requires IsChain(p, m, target, hooks) && HasDistinctNodes(target, hooks) && i <= |hooks|
    ensures var d := DetachFirst(m, hooks, i);
            d.patches == m.patches - Entries(target, hooks, i) &&
            d.trampolines == m.trampolines - TrampolinesOf(hooks, i) && d.slots == m.slots && d.nextId == m.nextId
  {
    hide Before, Entries, TrampolinesOf, Detach, DetachFirst, IsChain, HasDistinctNodes;
    if i == 0 {
      NoneDetached(m, target, hooks);
    } else {
      var entry, h := Before(target, hooks, i - 1), hooks[i - 1];
      DetachRemoves(p, m, target, hooks, i - 1);
      TrampolineIsNew(p, m, target, hooks, i - 1);
      AttachedHook(p, m, target, hooks, i - 1);
      OneMoreDetached(m, hooks, i);
      DetachOne(DetachFirst(m, hooks, i - 1), h, entry);
      OneMoreEntry(target, hooks, i);
      TakenAway(m.patches, Entries(target, hooks, i - 1), entry);
      TakenAway(m.trampolines, TrampolinesOf(hooks, i - 1), h.trampoline);
    }
  }

  lemma NoneDetached(m: Machine, target: Function, hooks: seq<Hook>)
    ensures DetachFirst(m, hooks, 0) == m
    ensures m.patches - Entries(target, hooks, 0) == m.patches &&
            m.trampolines - TrampolinesOf(hooks, 0) == m.trampolines
  {
  }

  lemma OneMoreDetached(m: Machine, hooks: seq<Hook>, i: nat)
    requires 0 < i <= |hooks|
    ensures DetachFirst(m, hooks, i) == Detach(DetachFirst(m, hooks, i - 1), hooks[i - 1])
  {
  }

  lemma TakenAway<K, V>(m: map<K, V>, keys: set<K>, k: K)
    ensures m - keys - {k} == m - (keys + {k})
  {
  }

  lemma DetachOne(m: Machine, h: Hook, entry: Function)
    requires h.trampoline in m.trampolines && m.trampolines[h.trampoline] == Trampoline(entry, None)
    ensures Detach(m, h) == m.(patches := m.patches - {entry}, trampolines := m.trampolines - {h.trampoline})
  {
  }

  lemma OneMoreEntry(target: Function, hooks: seq<Hook>, i: nat)
    requires 0 < i <= |hooks|
    ensures Entries(target, hooks, i) == Entries(target, hooks, i - 1) + {Before(target, hooks, i - 1)}
    ensures TrampolinesOf(hooks, i) == TrampolinesOf(hooks, i - 1) + {hooks[i - 1].trampoline}
  {
    hide Before;
  }

  lemma TrampolineIsNew(p: Program, m: Machine, target: Function, hooks: seq<Hook>, i: nat)
    requires IsChain(p, m, target, hooks) && HasDistinctNodes(target, hooks) && i < |hooks|
    ensures hooks[i].trampoline !in TrampolinesOf(hooks, i)
  {
    hide Before;
    assert IsAttached(p, m, Before(target, hooks, i), hooks[i]);
    forall k | 0 <= k < i
      ensures hooks[k].trampoline != hooks[i].trampoline
    {
      assert IsAttached(p, m, Before(target, hooks, k), hooks[k]);
    }
  }

  lemma NodesOfOne(p: Program, all: map<string, seq<Hook>>, name: string)
    requires AreDistinct(p, all) && name in p.targets
    ensures HasDistinctNodes(p.targets[name], HooksOf(all, name))
    ensures Distinct(HooksOf(all, name))
  {
    var hooks := HooksOf(all, name);
    forall i, j | 0 <= i < j <= |hooks|
      ensures Before(p.targets[name], hooks, i) != Before(p.targets[name], hooks, j)
    {
      assert IsAt(p, all, name, i) && IsAt(p, all, name, j);
      assert Node(p, all, name, i) != Node(p, all, name, j);
    }
    forall i, j | 0 <= i < j < |hooks|
      ensures hooks[i] != hooks[j]
    {
      assert Before(p.targets[name], hooks, i + 1) != Before(p.targets[name], hooks, j + 1);
    }
  }

  /** Detaching the hooks of one name leaves no trace on the chain of another. */
  lemma DetachSpares(p: Program, m: Machine, all: map<string, seq<Hook>>, name: string, other: string)
    requires IsValid(p, m, all) && name in p.targets && other in p.targets && name != other
    ensures var hooks := HooksOf(all, name);
            IsChain(p, DetachFirst(m, hooks, |hooks|), p.targets[other], HooksOf(all, other))
  {
    hide AreDistinct, IsNode;
    var hooks, others := HooksOf(all, name), HooksOf(all, other);
    var target := p.targets[name];
    var after := DetachFirst(m, hooks, |hooks|);
    NodesOfOne(p, all, name);
    DetachRemoves(p, m, target, hooks, |hooks|);
    NodesApart(p, all, name, other);
    forall i, k | 0 <= i < |others| && 0 <= k < |hooks|
      ensures others[i].trampoline != hooks[k].trampoline
    {
      assert IsAttached(p, m, Before(p.targets[other], others, i), others[i]);
      assert IsAttached(p, m, Before(target, hooks, k), hooks[k]);
    }
    ChainFrame(p, m, after, p.targets[other], others);
  }

  lemma NodesApart(p: Program, all: map<string, seq<Hook>>, name: string, other: string)
    requires AreDistinct(p, all) && name in p.targets && other in p.targets && name != other
    ensures forall i, k :: 0 <= i <= |HooksOf(all, other)| && 0 <= k <= |HooksOf(all, name)| ==>
              Before(p.targets[other], HooksOf(all, other), i) != Before(p.targets[name], HooksOf(all, name), k)
  {
    forall i, k | 0 <= i <= |HooksOf(all, other)| && 0 <= k <= |HooksOf(all, name)|
      ensures Before(p.targets[other], HooksOf(all, other), i) != Before(p.targets[name], HooksOf(all, name), k)
    {
      assert IsAt(p, all, other, i) && IsAt(p, all, name, k);
      assert Node(p, all, other, i) != Node(p, all, name, k);
    }
  }

  lemma FewerNodes(p: Program, all: map<string, seq<Hook>>, name: string)
    requires AreDistinct(p, all) && name in p.targets
    ensures AreDistinct(p, all[name := []])
    ensures forall x :: IsNode(p, all, x) && x !in Entries(p.targets[name], HooksOf(all, name), |HooksOf(all, name)|)
                        && x != Before(p.targets[name], HooksOf(all, name), |HooksOf(all, name)|)
                        ==> IsNode(p, all[name := []], x)
  {
    var fewer := all[name := []];
    forall f, i: nat | IsAt(p, fewer, f, i)
      ensures IsAt(p, all, f, i) && Node(p, fewer, f, i) == Node(p, all, f, i)
    {
    }
    forall x | IsNode(p, all, x) && x !in Entries(p.targets[name], HooksOf(all, name), |HooksOf(all, name)|)
               && x != Before(p.targets[name], HooksOf(all, name), |HooksOf(all, name)|)
      ensures IsNode(p, fewer, x)
    {
      var f, i: nat :| IsAt(p, all, f, i) && Node(p, all, f, i) == x;
      assert IsAt(p, fewer, f, i) && Node(p, fewer, f, i) == x;
    }
  }

  /** With all its hooks detached and forgotten, a name is as if never hooked. */
  lemma DetachKeepsValid(p: Program, m: Machine, all: map<string, seq<Hook>>, name: string)
    requires IsValid(p, m, all) && name in p.targets
    ensures IsValid(p, DetachFirst(m, HooksOf(all, name), |HooksOf(all, name)|), all[name := []])
  {
    hide AreDistinct, IsNode, IsChain;
    var hooks, target := HooksOf(all, name), p.targets[name];
    var after := DetachFirst(m, hooks, |hooks|);
    NodesOfOne(p, all, name);
    DetachRemoves(p, m, target, hooks, |hooks|);
    FewerNodes(p, all, name);
    BareTarget(p, m, target, hooks);
    forall other | other in p.targets
      ensures IsChain(p, after, p.targets[other], HooksOf(all[name := []], other))
    {
      if other != name { DetachSpares(p, m, all, name, other); }
    }
  }

  lemma BareTarget(p: Program, m: Machine, target: Function, hooks: seq<Hook>)
    requires IsChain(p, m, target, hooks) && HasDistinctNodes(target, hooks)
    ensures IsChain(p, DetachFirst(m, hooks, |hooks|), target, [])
    ensures Before(target, hooks, |hooks|) !in m.patches
  {
    DetachRemoves(p, m, target, hooks, |hooks|);
    if |hooks| > 0 { assert Before(target, hooks, 0) in Entries(target, hooks, |hooks|); }
  }

  /** The detours left over from a chain can be hooked again one after the other. */
  lemma RestCanHook(p: Program, m: Machine, all: map<string, seq<Hook>>, name: string, k: nat,
                    now: map<string, seq<Hook>>, j: nat)
    requires IsValid(p, m, all) && name in p.targets && k < |HooksOf(all, name)|
    requires j < |HooksOf(all, name)| - 1
    requires forall f :: f != name ==> HooksOf(now, f) == HooksOf(all, f)
    requires var rest := HooksOf(all, name)[..k] + HooksOf(all, name)[k + 1..];
             Detours(HooksOf(now, name)) == Detours(rest[..j])
    ensures var rest := HooksOf(all, name)[..k] + HooksOf(all, name)[k + 1..];
            CanHook(p, now, rest[j].detour, rest[j].original)
  {
    hide AreDistinct, IsNode, IsChain;
    var hooks := HooksOf(all, name);
    var rest := hooks[..k] + hooks[k + 1..];
    var q := if j < k then j else j + 1;
    assert rest[j] == hooks[q];
    AttachedHook(p, m, p.targets[name], hooks, q);
    RestIsNew(p, all, name, k, now, j);
  }

  lemma AttachedHook(p: Program, m: Machine, target: Function, hooks: seq<Hook>, q: nat)
    requires IsChain(p, m, target, hooks) && q < |hooks|
    ensures IsAttached(p, m, Before(target, hooks, q), hooks[q])
  {
  }

  lemma RestIsNew(p: Program, all: map<string, seq<Hook>>, name: string, k: nat, now: map<string, seq<Hook>>, j: nat)
    requires AreDistinct(p, all) && name in p.targets && k < |HooksOf(all, name)| && j < |HooksOf(all, name)| - 1
    requires forall f :: f != name ==> HooksOf(now, f) == HooksOf(all, f)
    requires var rest := HooksOf(all, name)[..k] + HooksOf(all, name)[k + 1..];
             Detours(HooksOf(now, name)) == Detours(rest[..j])
    ensures var rest := HooksOf(all, name)[..k] + HooksOf(all, name)[k + 1..];
            !IsNode(p, now, rest[j].detour)
  {
    var hooks := HooksOf(all, name);
    var rest := hooks[..k] + hooks[k + 1..];
    var place := (i: nat) => if i < k then i else i + 1;
    var x := rest[j].detour;
    assert rest[j] == hooks[place(j)];
    assert IsAt(p, all, name, place(j) + 1) && Node(p, all, name, place(j) + 1) == x;
    forall f, i: nat | IsAt(p, now, f, i)
      ensures Node(p, now, f, i) != x
    {
      if f != name || i == 0 {
        assert IsAt(p, all, f, i) && Node(p, all, f, i) == Node(p, now, f, i);
      } else {
        assert Detours(HooksOf(now, name))[i - 1] == rest[i - 1].detour;
        assert rest[i - 1] == hooks[place(i - 1)];
        assert IsAt(p, all, name, place(i - 1) + 1) && Node(p, all, name, place(i - 1) + 1) == Node(p, now, f, i);
      }
    }
  }

  // ----- the hook manager -----

  class Hooks {
    const program: Program
    var machine: Machine
    var all: map<string, seq<Hook>>

    ghost predicate Valid()
      reads this
    {
      IsValid(program, machine, all)
    }

    /** Where the chain of a name ends now: what the next detour is attached to. */
    function Newest(name: string): Function
      requires name in program.targets
      reads this
    {
      Before(program.targets[name], HooksOf(all, name), |HooksOf(all, name)|)
    }

    function Live(name: string): seq<Function>
      reads this
    {
      Detours(HooksOf(all, name))
    }

    /** Every function distinct, detours calling through slots of their own, and no code patched yet. */
    constructor (program: Program)
      requires OwnSlots(program)
      requires forall f, g :: f in program.targets && g in program.targets && f != g ==>
                 program.targets[f] != program.targets[g]
      requires forall f :: f in program.targets ==> program.targets[f] !in program.code
      ensures Valid() && this.program == program && all == map[]
    {
      this.program := program;
      machine := Machine(map[], map[], map[], 0);
      all := map[];
    }

    method SetHook(name: string, detour: Function, original: Slot) returns (ok: bool)
      requires Valid()
      modifies this
      ensures ok == (name in program.targets)
      ensures !ok ==> machine == old(machine) && all == old(all)
      ensures ok ==> machine == Attach(old(machine), old(Newest(name)), detour, original) &&
                     all == Hooked(old(all), name, Hook(old(machine.nextId), detour, original))
      ensures !ok || old(CanHook(program, all, detour, original)) ==> Valid()
      ensures ok && detour in program.code && program.code[detour] == original ==>
                (FollowsOrder(program, machine, all) <==> !old(IsNode(program, all, detour)))
    {
      hide IsValid, CanHook, IsNode, FollowsOrder;
      ok := name in program.targets;
      if ok {
        ghost var m, before := machine, all;
        var newest := Newest(name);
        var hook := Hook(machine.nextId, detour, original);
        machine := Attach(machine, newest, detour, original);
        all := Hooked(all, name, hook);
        if CanHook(program, before, detour, original) {
          HookKeepsValid(program, m, before, name, detour, original);
        }
        if detour in program.code && program.code[detour] == original {
          HookKeepsOrderIff(program, m, before, name, detour, original);
        }
      }
    }

    method FindHook(name: string, detour: Function) returns (k: nat)
      ensures k <= |Live(name)| && (k < |Live(name)| ==> Live(name)[k] == detour)
      ensures k == |Live(name)| ==> detour !in Live(name)
    {
      var hooks := HooksOf(all, name);
      k := 0;
      while k < |hooks| && hooks[k].detour != detour
        invariant k <= |hooks| && forall i :: 0 <= i < k ==> hooks[i].detour != detour
      {
        k := k + 1;
      }
    }

    method DisableHook(name: string, detour: Function) returns (ok: bool)
      requires Valid()
      modifies this
      ensures Valid()
      ensures ok == (name in program.targets && detour in old(Live(name)))
      ensures !ok ==> machine == old(machine) && all == old(all)
      ensures forall f :: f != name ==> HooksOf(all, f) == old(HooksOf(all, f))
      ensures ok ==> exists k :: 0 <= k < |old(Live(name))| && old(Live(name))[k] == detour &&
                                 Live(name) == old(Live(name))[..k] + old(Live(name))[k + 1..]
    {
      hide IsValid, CanHook, Detours, RemovedThrough, Distinct, Attach, DetachFirst;
      ok := false;
      if name !in program.targets { return; }
      var k := FindHook(name, detour);
      LiveLength(name);
      if k == |HooksOf(all, name)| { return; }
      ok := true;
      ghost var m0, all0 := machine, all;
      var hooks := HooksOf(all, name);
      DetachAll(hooks);
      DetachKeepsValid(program, m0, all0, name);
      HooksAreDistinct(program, m0, all0, name);
      var rest := WithoutHook(hooks, k);
      all := all[name := []];
      SetAgain(name, rest, m0, all0, k);
      RestOfDetours(hooks, k);
    }

    /** The hooks that are left, set again in their old order. */
    method SetAgain(name: string, rest: seq<Hook>, ghost m0: Machine, ghost all0: map<string, seq<Hook>>, ghost k: nat)
      requires Valid() && IsValid(program, m0, all0) && name in program.targets && k < |HooksOf(all0, name)|
      requires rest == HooksOf(all0, name)[..k] + HooksOf(all0, name)[k + 1..]
      requires HooksOf(all, name) == [] && forall f :: f != name ==> HooksOf(all, f) == HooksOf(all0, f)
      modifies this
      ensures Valid() && Live(name) == Detours(rest)
      ensures forall f :: f != name ==> HooksOf(all, f) == HooksOf(all0, f)
    {
      hide IsValid, CanHook, Detours, Attach;
      assert Live(name) == Detours(rest[..0]) by { assert HooksOf(all, name) == rest[..0]; }
      for j := 0 to |rest|
        invariant Valid() && Live(name) == Detours(rest[..j])
        invariant forall f :: f != name ==> HooksOf(all, f) == HooksOf(all0, f)
      {
        RestCanHook(program, m0, all0, name, k, all, j);
        ghost var id, before := machine.nextId, HooksOf(all, name);
        var _ := SetHook(name, rest[j].detour, rest[j].original);
        OneMoreDetour(before, rest, j, id);
      }
      assert rest[..|rest|] == rest;
    }

    lemma LiveLength(name: string)
      ensures |Live(name)| == |HooksOf(all, name)|
    {
    }

    method DetachAll(hooks: seq<Hook>)
      modifies this`machine
      ensures machine == DetachFirst(old(machine), hooks, |hooks|)
    {
      for i := 0 to |hooks|
        invariant machine == DetachFirst(old(machine), hooks, i)
      {
        machine := Detach(machine, hooks[i]);
      }
    }

    /** At any moment, calling a named function follows its live hooks in the documented order. */
    lemma CallsFollowLive(name: string, fuel: nat)
      requires Valid() && name in program.targets && fuel >= 2 * |Live(name)| + 1
      ensures Call(program, machine, program.targets[name], fuel)
              == Some(Order(program.targets[name], HooksOf(all, name), |Live(name)|))
    {
      CallRunsNewestFirst(program, machine, program.targets[name], HooksOf(all, name), fuel);
    }
  }

  lemma HooksAreDistinct(p: Program, m: Machine, all: map<string, seq<Hook>>, name: string)
    requires IsValid(p, m, all) && name in p.targets
    ensures Distinct(HooksOf(all, name))
  {
    NodesOfOne(p, all, name);
  }

  /** Erasing one hook of the list, compared through its own slot. */
  method WithoutHook(hooks: seq<Hook>, k: nat) returns (rest: seq<Hook>)
    requires Distinct(hooks) && k < |hooks|
    ensures rest == hooks[..k] + hooks[k + 1..]
  {
    hide RemovedThrough, Distinct;
    DistinctRemovesOne(hooks, k);
    var slots := new Hook[|hooks|](i requires 0 <= i < |hooks| => hooks[i]);
    assert slots[..] == hooks && slots[..k] == hooks[..k];
    var end := RemoveAliased(slots, k);
    rest := slots[..end];
  }

  lemma OneMoreDetour(before: seq<Hook>, rest: seq<Hook>, j: nat, id: nat)
    requires j < |rest| && Detours(before) == Detours(rest[..j])
    ensures Detours(before + [Hook(id, rest[j].detour, rest[j].original)]) == Detours(rest[..j + 1])
  {
    assert |before| == |Detours(before)| == j;
    forall i | 0 <= i < j
      ensures before[i].detour == rest[i].detour
    {
      assert Detours(before)[i] == Detours(rest[..j])[i];
    }
  }

  lemma RestOfDetours(hooks: seq<Hook>, k: nat)
    requires k < |hooks|
    ensures Detours(hooks[..k] + hooks[k + 1..]) == Detours(hooks)[..k] + Detours(hooks)[k + 1..]
  {
  }

  /** Two hooks on one function, from the start: a call runs the second, then the first, then the original. */
  method TwoHooksInOrder(name: string, target: Function, first: Function, second: Function, s: Slot, t: Slot)
    returns (hooks: Hooks)
    requires target != first && target != second && first != second && s != t
    ensures fresh(hooks) && hooks.Valid()
    ensures Call(hooks.program, hooks.machine, target, 5) == Some([second, first, target])
  {
    hide IsNode, IsValid, Call, Order, Attach, FollowsOrder;
    var p := Program(map[name := target], map[first := s, second := t]);
    hooks := new Hooks(p);
    NoNodeYet(p, name, first);
    var _ := hooks.SetHook(name, first, s);
    OneNodeYet(p, hooks.all, name, second);
    var _ := hooks.SetHook(name, second, t);
    hooks.CallsFollowLive(name, 5);
    TwoInOrder(target, HooksOf(hooks.all, name));
  }

  lemma NoNodeYet(p: Program, name: string, detour: Function)
    requires p.targets.Keys == {name} && p.targets[name] != detour
    ensures !IsNode(p, map[], detour)
  {
  }

  lemma OneNodeYet(p: Program, all: map<string, seq<Hook>>, name: string, detour: Function)
    requires p.targets.Keys == {name} && p.targets[name] != detour && |HooksOf(all, name)| == 1
    requires HooksOf(all, name)[0].detour != detour
    ensures !IsNode(p, all, detour)
  {
  }

  lemma TwoInOrder(target: Function, hooks: seq<Hook>)
    requires |hooks| == 2
    ensures Order(target, hooks, 2) == [hooks[1].detour, hooks[0].detour, target]
  {
    assert Order(target, hooks, 1) == [hooks[0].detour, target];
  }
}
