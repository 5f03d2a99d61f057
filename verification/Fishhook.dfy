/**
 fishhook: batches of rebindings, newest first, are applied to the symbol pointer slots of every loaded
 image and of every image loaded later. A slot takes the first match; what it held before is saved in
 the cell that the rebinding names.
 */
module Fishhook {
  import opened Basics

  type Pointer = nat

  /** The address of a `replaced` variable. */
  type Cell = nat

  datatype Rebinding = Rebinding(name: string, replacement: Pointer, replaced: Option<Cell>)

  type Batch = seq<Rebinding>

  /** An entry of the indirect symbol table: a marked one, or the name in the string table. */
  datatype Symbol = AbsoluteOrLocal | Symbol(name: string)

  /**
   One pointer slot. It is eligible when its section holds lazy or non-lazy symbol pointers of a data
   segment and its image has the tables; `protectOk` is the outcome of `vm_protect` on its section.
   */
  datatype Slot = Slot(symbol: Symbol, eligible: bool, protectOk: bool, value: Pointer)

  type Saved = map<Cell, Pointer>

  // ------------------------------------------------------------------------------------ what a slot becomes

  /** The first rebinding of a name in a batch. */
  function FindInBatch(b: Batch, name: string): Option<Rebinding> {
    if b == [] then None else if b[0].name == name then Some(b[0]) else FindInBatch(b[1..], name)
  }

  /** The first batch that has the name decides. */
  function Find(bs: seq<Batch>, name: string): Option<Rebinding> {
    if bs == [] then None
    else if FindInBatch(bs[0], name).Some? then FindInBatch(bs[0], name)
    else Find(bs[1..], name)
  }

  /** Names shorter than two characters never match; the leading underscore is not compared. */
  function Match(bs: seq<Batch>, s: Slot): Option<Rebinding> {
    if s.eligible && s.symbol.Symbol? && |s.symbol.name| > 1 then Find(bs, s.symbol.name[1..]) else None
  }

  function Rebound(bs: seq<Batch>, s: Slot): Slot {
    match Match(bs, s)
    case Some(r) => if s.protectOk then s.(value := r.replacement) else s
    case None => s
  }

  function SavedBy(bs: seq<Batch>, s: Slot, saved: Saved): Saved {
    match Match(bs, s)
    case Some(r) => if r.replaced.Some? && s.value != r.replacement then saved[r.replaced.value := s.value] else saved
    case None => saved
  }

  function ReboundAll(bs: seq<Batch>, slots: seq<Slot>): seq<Slot> {
    seq(|slots|, i requires 0 <= i < |slots| => Rebound(bs, slots[i]))
  }

  function SavedByAll(bs: seq<Batch>, slots: seq<Slot>, saved: Saved): Saved {
    if slots == [] then saved else SavedByAll(bs, slots[1..], SavedBy(bs, slots[0], saved))
  }

  lemma {:induction false} SavedConcat(bs: seq<Batch>, a: seq<Slot>, b: seq<Slot>, saved: Saved)
    ensures SavedByAll(bs, a + b, saved) == SavedByAll(bs, b, SavedByAll(bs, a, saved))
    decreases |a|
  {
    if a == [] {
      assert a + b == b;
    } else {
      assert (a + b)[1..] == a[1..] + b;
      SavedConcat(bs, a[1..], b, SavedBy(bs, a[0], saved));
    }
  }

  /** Of the rebindings of a name in a batch, the first counts. */
  lemma {:induction false} FirstInBatch(b: Batch, name: string, i: nat)
    requires i <= |b| && forall j | 0 <= j < i :: b[j].name != name
    requires i < |b| ==> b[i].name == name
    ensures FindInBatch(b, name) == if i < |b| then Some(b[i]) else None
    decreases |b|
  {
    if i > 0 {
      FirstInBatch(b[1..], name, i - 1);
    }
  }

  /** A slot of a rebound name that does not hold the replacement yet, where the rebinding saves to `c`. */
  predicate SavesTo(bs: seq<Batch>, s: Slot, c: Cell) {
    && s.eligible && s.symbol.Symbol? && |s.symbol.name| > 1
    && var r := Find(bs, s.symbol.name[1..]);
       r.Some? && r.value.replaced == Some(c) && s.value != r.value.replacement
  }

  /** A pass leaves in a cell what the last slot that saves to it held, whether memory could be made writable or not. */
  lemma {:induction false} PassSavesLast(bs: seq<Batch>, slots: seq<Slot>, saved: Saved, c: Cell, i: nat)
    requires i < |slots| && SavesTo(bs, slots[i], c) && forall j | i < j < |slots| :: !SavesTo(bs, slots[j], c)
    ensures var after := SavedByAll(bs, slots, saved); c in after && after[c] == slots[i].value
    decreases |slots|
  {
    var next := SavedBy(bs, slots[0], saved);
    if i > 0 {
      PassSavesLast(bs, slots[1..], next, c, i - 1);
    } else {
      PassLeaves(bs, slots[1..], next, c);
    }
  }

  /** And a cell that no slot saves to as it was. */
  lemma {:induction false} PassLeaves(bs: seq<Batch>, slots: seq<Slot>, saved: Saved, c: Cell)
    requires forall j | 0 <= j < |slots| :: !SavesTo(bs, slots[j], c)
    ensures var after := SavedByAll(bs, slots, saved);
            (c in after <==> c in saved) && (c in saved ==> after[c] == saved[c])
    decreases |slots|
  {
    if slots != [] {
      PassLeaves(bs, slots[1..], SavedBy(bs, slots[0], saved), c);
    }
  }

  // ----------------------------------------------------------------------- rebindings and image loads

  datatype Op = Rebind(batch: Batch) | Load(slots: seq<Slot>)

  /** The batches, the slots of all images in load order, and the saved pointers. */
  datatype Process = Process(batches: seq<Batch>, slots: seq<Slot>, saved: Saved)

  /** The add-image callback exists once there is a batch; registering it runs it on all images. */
  function Step(p: Process, op: Op): Process {
    match op
    case Rebind(batch) =>
      var bs := [batch] + p.batches;
      Process(bs, ReboundAll(bs, p.slots), SavedByAll(bs, p.slots, p.saved))
    case Load(slots) =>
      if p.batches == [] then p.(slots := p.slots + slots)
      else Process(p.batches, p.slots + ReboundAll(p.batches, slots), SavedByAll(p.batches, slots, p.saved))
  }

  function Run(ops: seq<Op>): Process {
    if ops == [] then Process([], [], map[]) else Step(Run(ops[..|ops| - 1]), ops[|ops| - 1])
  }

  /** The slots of all images as they were when loaded. */
  function Loaded(ops: seq<Op>): seq<Slot> {
    if ops == [] then []
    else Loaded(ops[..|ops| - 1]) + if ops[|ops| - 1].Load? then ops[|ops| - 1].slots else []
  }

  /** The replacement from the latest rebind call that names a symbol. */
  function Latest(ops: seq<Op>, name: string): Option<Rebinding> {
    if ops == [] then None
    else
      var last := ops[|ops| - 1];
      if last.Rebind? && FindInBatch(last.batch, name).Some? then FindInBatch(last.batch, name)
      else Latest(ops[..|ops| - 1], name)
  }

  lemma {:induction false} LatestIsFound(ops: seq<Op>, name: string)
    ensures Find(Run(ops).batches, name) == Latest(ops, name)
  {
    if ops != [] {
      var p := Run(ops[..|ops| - 1]);
      LatestIsFound(ops[..|ops| - 1], name);
      if ops[|ops| - 1].Rebind? {
        assert ([ops[|ops| - 1].batch] + p.batches)[1..] == p.batches;
      }
    }
  }

  /** What a newer batch does to a slot does not depend on the older ones having been applied. */
  lemma NewerWins(b: Batch, bs: seq<Batch>, s: Slot)
    ensures Rebound([b] + bs, Rebound(bs, s)) == Rebound([b] + bs, s)
  {
  }

  lemma {:induction false} SlotsAreRebound(ops: seq<Op>)
    ensures Run(ops).slots == ReboundAll(Run(ops).batches, Loaded(ops))
  {
    if ops != [] {
      var prev, op := ops[..|ops| - 1], ops[|ops| - 1];
      SlotsAreRebound(prev);
      var p, loaded := Run(prev), Loaded(prev);
      match op
      case Rebind(batch) =>
        forall i | 0 <= i < |loaded| ensures Rebound([batch] + p.batches, p.slots[i]) == Rebound([batch] + p.batches, loaded[i]) {
          NewerWins(batch, p.batches, loaded[i]);
        }
      case Load(slots) =>
        if p.batches == [] {
          assert ReboundAll([], slots) == slots;
        }
    }
  }

  /**
   After any interleaving of rebind calls and image loads, in old and new images alike: a slot that can be
   changed and whose name was ever rebound holds the replacement of the latest call that names it, and
   every other slot holds what it held when loaded.
   */
  lemma LatestReplacementEverywhere(ops: seq<Op>, i: nat)
    requires i < |Loaded(ops)|
    ensures |Run(ops).slots| == |Loaded(ops)|
    ensures var s, now := Loaded(ops)[i], Run(ops).slots[i];
            && now == s.(value := now.value)
            && now.value == if s.eligible && s.protectOk && s.symbol.Symbol? && |s.symbol.name| > 1
                               && Latest(ops, s.symbol.name[1..]).Some?
                            then Latest(ops, s.symbol.name[1..]).value.replacement else s.value
  {
    SlotsAreRebound(ops);
    var s := Loaded(ops)[i];
    if s.symbol.Symbol? && |s.symbol.name| > 1 {
      LatestIsFound(ops, s.symbol.name[1..]);
    }
  }

  // --------------------------------------------------------------------------------------- rebinding again

  ghost predicate Protectable(slots: seq<Slot>) {
    forall s | s in slots :: s.protectOk
  }

  lemma {:induction false} NothingToSave(bs: seq<Batch>, slots: seq<Slot>, saved: Saved)
    requires Protectable(slots)
    ensures SavedByAll(bs, ReboundAll(bs, slots), saved) == saved
    decreases |slots|
  {
    if slots != [] {
      assert slots[0] in slots;
      assert ReboundAll(bs, slots)[1..] == ReboundAll(bs, slots[1..]);
      NothingToSave(bs, slots[1..], saved);
    }
  }

  /** Where memory can be made writable, a second pass changes no slot and no saved pointer. */
  lemma SecondPassIsIdle(bs: seq<Batch>, slots: seq<Slot>, saved: Saved)
    requires Protectable(slots)
    ensures ReboundAll(bs, ReboundAll(bs, slots)) == ReboundAll(bs, slots)
    ensures SavedByAll(bs, ReboundAll(bs, slots), SavedByAll(bs, slots, saved)) == SavedByAll(bs, slots, saved)
  {
    NothingToSave(bs, slots, SavedByAll(bs, slots, saved));
  }

  // -------------------------------------------------------------------------------------- chains of hooks

  /** A rebinding of the hooked name that saves to a cell of its own. */
  datatype Hook = Hook(replacement: Pointer, cell: Cell)

  function HookOp(name: string, h: Hook): Op {
    Rebind([Rebinding(name, h.replacement, Some(h.cell))])
  }

  /** One rebind call after the other. */
  function Hooked(p: Process, name: string, hooks: seq<Hook>): Process {
    if hooks == [] then p else Step(Hooked(p, name, hooks[..|hooks| - 1]), HookOp(name, hooks[|hooks| - 1]))
  }

  /** The slots that a name reaches. */
  predicate Reaches(name: string, s: Slot) {
    s.eligible && s.symbol.Symbol? && |s.symbol.name| > 1 && s.symbol.name[1..] == name
  }

  ghost predicate IsReached(name: string, slots: seq<Slot>) {
    exists s | s in slots :: Reaches(name, s)
  }

  /** All slots that the name reaches hold `v`. */
  ghost predicate Hold(name: string, slots: seq<Slot>, v: Pointer) {
    forall s | s in slots && Reaches(name, s) :: s.value == v
  }

  /** The state of a process whose images were `loaded` and could all be changed. */
  ghost predicate Settled(p: Process, loaded: seq<Slot>) {
    Protectable(loaded) && p.slots == ReboundAll(p.batches, loaded)
  }

  /** Replacements differ from each other and from the original; cells differ from each other. */
  ghost predicate Distinct(hooks: seq<Hook>, original: Pointer) {
    && (forall i | 0 <= i < |hooks| :: hooks[i].replacement != original)
    && (forall i, j | 0 <= i < j < |hooks| :: hooks[i].replacement != hooks[j].replacement && hooks[i].cell != hooks[j].cell)
  }

  lemma MatchOnTop(name: string, h: Hook, bs: seq<Batch>, s: Slot)
    ensures Match([HookOp(name, h).batch] + bs, s)
         == if Reaches(name, s) then Some(Rebinding(name, h.replacement, Some(h.cell))) else Match(bs, s)
  {
    if s.symbol.Symbol? && |s.symbol.name| > 1 {
      FindOnTop(Rebinding(name, h.replacement, Some(h.cell)), bs, s.symbol.name[1..]);
    }
  }

  lemma FindOnTop(r: Rebinding, bs: seq<Batch>, name: string)
    ensures Find([[r]] + bs, name) == if r.name == name then Some(r) else Find(bs, name)
  {
    var all := [[r]] + bs;
    assert all[0] == [r] && all[1..] == bs;
    assert [r][1..] == [];
    assert FindInBatch([r], name) == if r.name == name then Some(r) else None;
  }

  /** A pass of a new hook over settled slots saves `v` to its cell, and to no other. */
  lemma {:induction false} HookSaves(name: string, h: Hook, bs: seq<Batch>, loaded: seq<Slot>, saved: Saved, v: Pointer)
    requires Protectable(loaded) && Hold(name, ReboundAll(bs, loaded), v) && v != h.replacement
    ensures SavedByAll([HookOp(name, h).batch] + bs, ReboundAll(bs, loaded), saved)
         == if IsReached(name, loaded) then saved[h.cell := v] else saved
    decreases |loaded|
  {
    if loaded != [] {
      var slots, all := ReboundAll(bs, loaded), [HookOp(name, h).batch] + bs;
      assert loaded[0] in loaded && slots[0] in slots;
      assert slots[1..] == ReboundAll(bs, loaded[1..]);
      MatchOnTop(name, h, bs, slots[0]);
      var next := SavedBy(all, slots[0], saved);
      assert next == if Reaches(name, loaded[0]) then saved[h.cell := v] else saved;
      HookSaves(name, h, bs, loaded[1..], next, v);
      assert loaded == [loaded[0]] + loaded[1..];
    }
  }

  /** A new hook over settled slots is the same as over the loaded ones. */
  lemma HookSettles(b: Batch, bs: seq<Batch>, loaded: seq<Slot>)
    ensures ReboundAll([b] + bs, ReboundAll(bs, loaded)) == ReboundAll([b] + bs, loaded)
  {
    hide Rebound;
    forall i | 0 <= i < |loaded| ensures Rebound([b] + bs, Rebound(bs, loaded[i])) == Rebound([b] + bs, loaded[i]) {
      NewerWins(b, bs, loaded[i]);
    }
  }

  lemma HookHolds(name: string, h: Hook, bs: seq<Batch>, loaded: seq<Slot>)
    requires Protectable(loaded)
    ensures Hold(name, ReboundAll([HookOp(name, h).batch] + bs, loaded), h.replacement)
  {
    var all := [HookOp(name, h).batch] + bs;
    forall s | s in ReboundAll(all, loaded) && Reaches(name, s) ensures s.value == h.replacement {
      var i :| 0 <= i < |loaded| && ReboundAll(all, loaded)[i] == s;
      assert loaded[i] in loaded;
      MatchOnTop(name, h, bs, loaded[i]);
    }
  }

  lemma HookStep(name: string, h: Hook, p: Process, loaded: seq<Slot>, v: Pointer)
    requires Settled(p, loaded) && Hold(name, p.slots, v) && v != h.replacement && IsReached(name, loaded)
    ensures var q := Step(p, HookOp(name, h));
            Settled(q, loaded) && Hold(name, q.slots, h.replacement) && q.saved == p.saved[h.cell := v]
  {
    hide ReboundAll, SavedByAll, Hold, IsReached;
    HookSaves(name, h, p.batches, loaded, p.saved, v);
    HookSettles(HookOp(name, h).batch, p.batches, loaded);
    HookHolds(name, h, p.batches, loaded);
  }

  /** What a hook of a chain has in its cell: the replacement below it, or the original. */
  function Below(hooks: seq<Hook>, original: Pointer, i: nat): Pointer
    requires i < |hooks|
  {
    if i == 0 then original else hooks[i - 1].replacement
  }

  ghost predicate IsChain(hooks: seq<Hook>, original: Pointer, saved: Saved) {
    forall i | 0 <= i < |hooks| :: hooks[i].cell in saved && saved[hooks[i].cell] == Below(hooks, original, i)
  }

  /** Over fixed images with a common original, hooks of one name form a chain through their cells. */
  lemma {:induction false} HooksFormAChain(name: string, hooks: seq<Hook>, p: Process, loaded: seq<Slot>, original: Pointer)
    requires Settled(p, loaded) && Hold(name, p.slots, original) && IsReached(name, loaded) && Distinct(hooks, original)
    ensures var q := Hooked(p, name, hooks);
            && Settled(q, loaded)
            && IsChain(hooks, original, q.saved)
            && Hold(name, q.slots, if hooks == [] then original else hooks[|hooks| - 1].replacement)
    decreases |hooks|
  {
    if hooks != [] {
      hide Step, Settled, Hold, IsReached;
      var n := |hooks| - 1;
      var lower := hooks[..n];
      HooksFormAChain(name, lower, p, loaded, original);
      var q, v := Hooked(p, name, lower), Below(hooks, original, n);
      HookStep(name, hooks[n], q, loaded, v);
      ChainGrows(hooks, original, q.saved);
    }
  }

  lemma {:induction false} ChainGrows(hooks: seq<Hook>, original: Pointer, saved: Saved)
    requires hooks != [] && Distinct(hooks, original) && IsChain(hooks[..|hooks| - 1], original, saved)
    ensures IsChain(hooks, original, saved[hooks[|hooks| - 1].cell := Below(hooks, original, |hooks| - 1)])
  {
    var n, lower := |hooks| - 1, hooks[..|hooks| - 1];
    forall i | 0 <= i < n ensures hooks[i].cell in saved && saved[hooks[i].cell] == Below(hooks, original, i) {
      assert lower[i] == hooks[i] && Below(lower, original, i) == Below(hooks, original, i);
    }
  }

  /** Calling through a replacement's own cell, `n` times from the top of the chain. */
  function Follow(hooks: seq<Hook>, saved: Saved, n: nat): Option<Pointer>
    requires n <= |hooks| && forall i | 0 <= i < |hooks| :: hooks[i].cell in saved
  {
    if n == 0 then if hooks == [] then None else Some(hooks[|hooks| - 1].replacement)
    else
      match Follow(hooks, saved, n - 1)
      case None => None
      case Some(v) => match OwnCell(hooks, v)
        case None => None
        case Some(c) => if c in saved then Some(saved[c]) else None
  }

  /** The cell that the code behind a replacement calls through. */
  function OwnCell(hooks: seq<Hook>, v: Pointer): Option<Cell> {
    if hooks == [] then None else if hooks[0].replacement == v then Some(hooks[0].cell) else OwnCell(hooks[1..], v)
  }

  lemma {:induction false} OwnCellOf(hooks: seq<Hook>, original: Pointer, i: nat)
    requires i < |hooks| && Distinct(hooks, original)
    ensures OwnCell(hooks, hooks[i].replacement) == Some(hooks[i].cell)
  {
    if i > 0 {
      OwnCellOf(hooks[1..], original, i - 1);
    }
  }

  lemma FollowNext(hooks: seq<Hook>, saved: Saved, n: nat, v: Pointer, c: Cell)
    requires n < |hooks| && forall i | 0 <= i < |hooks| :: hooks[i].cell in saved
    requires Follow(hooks, saved, n) == Some(v) && OwnCell(hooks, v) == Some(c) && c in saved
    ensures Follow(hooks, saved, n + 1) == Some(saved[c])
  {
  }

  lemma CellsSaved(hooks: seq<Hook>, original: Pointer, saved: Saved)
    requires IsChain(hooks, original, saved)
    ensures forall i | 0 <= i < |hooks| :: hooks[i].cell in saved
  {
  }

  lemma LinkOf(hooks: seq<Hook>, original: Pointer, saved: Saved, i: nat)
    requires i < |hooks| && IsChain(hooks, original, saved)
    ensures hooks[i].cell in saved && saved[hooks[i].cell] == if i == 0 then original else hooks[i - 1].replacement
  {
  }

  /** From the `i`th replacement a step leads to the one below it. */
  lemma StepDown(hooks: seq<Hook>, original: Pointer, saved: Saved, n: nat, i: nat)
    requires IsChain(hooks, original, saved) && Distinct(hooks, original) && i < |hooks| && n == |hooks| - 1 - i
    requires Follow(hooks, saved, n) == Some(hooks[i].replacement)
    ensures Follow(hooks, saved, n + 1) == Some(if i == 0 then original else hooks[i - 1].replacement)
  {
    CellsSaved(hooks, original, saved);
    LinkOf(hooks, original, saved, i);
    OwnCellOf(hooks, original, i);
    hide IsChain, Distinct, OwnCell, Follow;
    FollowNext(hooks, saved, n, hooks[i].replacement, hooks[i].cell);
  }

  /** So k steps down a chain of k hooks reach the original, through every replacement on the way. */
  lemma {:induction false} ChainReachesOriginal(hooks: seq<Hook>, original: Pointer, saved: Saved, n: nat)
    requires IsChain(hooks, original, saved) && Distinct(hooks, original) && n <= |hooks| && hooks != []
    ensures Follow(hooks, saved, n)
         == Some(if n == |hooks| then original else hooks[|hooks| - 1 - n].replacement)
  {
    hide IsChain, Distinct, Below;
    if n > 0 {
      hide Follow;
      ChainReachesOriginal(hooks, original, saved, n - 1);
      StepDown(hooks, original, saved, n - 1, |hooks| - n);
    }
  }

  /**
   An image loaded after the hooks, with the same original, breaks the chain: the newest hook saves that
   original again. The chain survives exactly when there is one hook or the image does not have the name.
   */
  lemma {:induction false} LateImageShortcutsTheChain(name: string, hooks: seq<Hook>, loaded: seq<Slot>, late: seq<Slot>, original: Pointer)
    requires Settled(Process([], loaded, map[]), loaded) && Hold(name, loaded, original) && IsReached(name, loaded)
    requires Protectable(late) && Hold(name, late, original) && Distinct(hooks, original) && hooks != []
    ensures var q := Step(Hooked(Process([], loaded, map[]), name, hooks), Load(late));
            IsChain(hooks, original, q.saved) <==> |hooks| == 1 || !IsReached(name, late)
  {
    var p := Process([], loaded, map[]);
    var n := |hooks| - 1;
    HooksFormAChain(name, hooks, p, loaded, original);
    var lower, q := Hooked(p, name, hooks[..n]), Hooked(p, name, hooks);
    OnlyTheName(name, hooks[..n], p, late);
    assert ReboundAll([], late) == late;
    LateSaves(name, hooks[n], lower.batches, late, q.saved, original);
    if IsReached(name, late) {
      var saved := q.saved[hooks[n].cell := original];
      assert |hooks| > 1 ==> saved[hooks[n].cell] != Below(hooks, original, n);
    }
  }

  /** The batches of the chain name nothing else. */
  lemma {:induction false} OnlyTheName(name: string, hooks: seq<Hook>, p: Process, late: seq<Slot>)
    requires p.batches == []
    ensures forall s | s in late && !Reaches(name, s) :: Match(Hooked(p, name, hooks).batches, s) == None
    ensures hooks != [] ==> Hooked(p, name, hooks).batches != []
    decreases |hooks|
  {
    if hooks != [] {
      var n := |hooks| - 1;
      OnlyTheName(name, hooks[..n], p, late);
      var bs := Hooked(p, name, hooks[..n]).batches;
      forall s | s in late && !Reaches(name, s) ensures Match(Hooked(p, name, hooks).batches, s) == None {
        MatchOnTop(name, hooks[n], bs, s);
      }
    }
  }

  lemma {:induction false} LateSaves(name: string, h: Hook, bs: seq<Batch>, late: seq<Slot>, saved: Saved, v: Pointer)
    requires Hold(name, late, v) && v != h.replacement
    requires forall s | s in late && !Reaches(name, s) :: Match(bs, s) == None
    ensures SavedByAll([HookOp(name, h).batch] + bs, late, saved) == if IsReached(name, late) then saved[h.cell := v] else saved
    decreases |late|
  {
    if late != [] {
      var all := [HookOp(name, h).batch] + bs;
      assert late[0] in late;
      MatchOnTop(name, h, bs, late[0]);
      var next := SavedBy(all, late[0], saved);
      assert next == if Reaches(name, late[0]) then saved[h.cell := v] else saved;
      LateSaves(name, h, bs, late[1..], next, v);
      assert late == [late[0]] + late[1..];
    }
  }
}
