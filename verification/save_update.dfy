// The staged save update: writes and deletes are buffered and reach the container's
// directory only when the update is submitted, which may fail part way and be tried again
// after more has been staged. The directory is a map from names to contents; the container's
// display name lives under a reserved name in it.

module SaveUpdate {
  import opened Basics
  import opened Results

  type Name = string
  type Bytes = seq<bv8>
  type Files = map<Name, Bytes>

  const META: Name := ".xgamesave_display_name"

  datatype Write = Write(name: Name, bytes: Bytes)

  // What the caller asks for, in the order asked.
  datatype Op = Put(name: Name, bytes: Bytes) | Delete(name: Name)

  datatype Batch = Batch(writes: seq<Write>, deletes: seq<Name>)

  const EMPTY := Batch([], [])

  // How the file system treats one submit: whether the directory can be made, which write
  // fails first and what it leaves under that name (None: nothing), which files cannot be
  // removed, and what writing the display name leaves if that fails (its error is ignored).
  datatype Weather = Weather(
    dirOk: bool,
    failsAt: Option<nat>,
    leaves: Option<Bytes>,
    stuck: set<Name>,
    displayFails: bool,
    displayLeaves: Option<Bytes>)

  // ---- files -------------------------------------------------------------------------

  function Lookup(files: Files, name: Name): Option<Bytes> {
    if name in files then Some(files[name]) else None
  }

  function Leave(files: Files, name: Name, content: Option<Bytes>): Files {
    match content
    case Some(bytes) => files[name := bytes]
    case None => files - {name}
  }

  // ---- direct execution --------------------------------------------------------------

  function Direct(files: Files, op: Op): Files {
    match op
    case Put(name, bytes) => files[name := bytes]
    case Delete(name) => files - {name}
  }

  function DirectAll(files: Files, ops: seq<Op>): Files {
    if ops == [] then files else Direct(DirectAll(files, ops[..|ops| - 1]), ops[|ops| - 1])
  }

  // ---- staging -----------------------------------------------------------------------

  function Without(writes: seq<Write>, name: Name): seq<Write> {
    if writes == [] then []
    else
      var rest, last := Without(writes[..|writes| - 1], name), writes[|writes| - 1];
      if last.name == name then rest else rest + [last]
  }

  function WithoutName(names: seq<Name>, name: Name): seq<Name> {
    if names == [] then []
    else
      var rest, last := WithoutName(names[..|names| - 1], name), names[|names| - 1];
      if last == name then rest else rest + [last]
  }

  function Stage(b: Batch, op: Op): Batch {
    match op
    case Put(name, bytes) => Batch(Without(b.writes, name) + [Write(name, bytes)], WithoutName(b.deletes, name))
    case Delete(name) => Batch(Without(b.writes, name), b.deletes + [name])
  }

  // ---- submitting --------------------------------------------------------------------

  function Written(files: Files, writes: seq<Write>): Files {
    if writes == [] then files
    else
      var last := writes[|writes| - 1];
      Written(files, writes[..|writes| - 1])[last.name := last.bytes]
  }

  function Removed(files: Files, names: seq<Name>, stuck: set<Name>): Files {
    if names == [] then files
    else
      var rest, last := Removed(files, names[..|names| - 1], stuck), names[|names| - 1];
      if last in stuck then rest else rest - {last}
  }

  function Shown(files: Files, displayName: Bytes, w: Weather): Files {
    if displayName == [] then files
    else Leave(files, META, if w.displayFails then w.displayLeaves else Some(displayName))
  }

  function FirstFailure(w: Weather, n: nat): Option<nat> {
    if w.failsAt.Some? && w.failsAt.value < n then w.failsAt else None
  }

  predicate Succeeds(b: Batch, w: Weather) {
    w.dirOk && FirstFailure(w, |b.writes|).None?
  }

  function Submitted(files: Files, b: Batch, displayName: Bytes, w: Weather): Files {
    if !w.dirOk then files
    else
      match FirstFailure(w, |b.writes|)
      case Some(k) => Leave(Written(files, b.writes[..k]), b.writes[k].name, w.leaves)
      case None => Shown(Removed(Written(files, b.writes), b.deletes, w.stuck), displayName, w)
  }

  // ---- the update object -------------------------------------------------------------

  class Folder {
    var files: Files

    constructor (files: Files)
      ensures this.files == files
    {
      this.files := files;
    }
  }

  class UpdateState {
    const folder: Folder
    const displayName: Bytes
    var writes: seq<Write>
    var deletes: seq<Name>

    function View(): Batch
      reads this
    {
      Batch(writes, deletes)
    }

    // XGameSaveCreateUpdate
    constructor (folder: Folder, displayName: Bytes)
      ensures View() == EMPTY && this.folder == folder && this.displayName == displayName
    {
      this.folder, this.displayName := folder, displayName;
      writes, deletes := [], [];
    }

    method RetainWrites(name: Name)
      modifies this`writes
      ensures writes == Without(old(writes), name)
    {
      var kept := [];
      var i := 0;
      while i < |writes|
        invariant 0 <= i <= |writes|
        invariant writes == old(writes) && kept == Without(writes[..i], name)
      {
        assert writes[..i + 1][..i] == writes[..i];
        if writes[i].name != name {
          kept := kept + [writes[i]];
        }
        i := i + 1;
      }
      assert writes[..i] == writes;
      writes := kept;
    }

    method RetainDeletes(name: Name)
      modifies this`deletes
      ensures deletes == WithoutName(old(deletes), name)
    {
      var kept := [];
      var i := 0;
      while i < |deletes|
        invariant 0 <= i <= |deletes|
        invariant deletes == old(deletes) && kept == WithoutName(deletes[..i], name)
      {
        assert deletes[..i + 1][..i] == deletes[..i];
        if deletes[i] != name {
          kept := kept + [deletes[i]];
        }
        i := i + 1;
      }
      assert deletes[..i] == deletes;
      deletes := kept;
    }

    // `name` and `data` are None for a null pointer (or a name that is not UTF-8).
    method SubmitBlobWrite(name: Option<Name>, data: Option<Bytes>, byteCount: nat) returns (hr: HResult)
      requires data.Some? ==> |data.value| == byteCount
      modifies this`writes, this`deletes
      ensures hr == if name.None? then E_INVALIDARG else if data.None? && byteCount != 0 then E_POINTER else S_OK
      ensures hr != S_OK ==> View() == old(View())
      ensures hr == S_OK ==> View() == Stage(old(View()), Put(name.value, if data.Some? then data.value else []))
    {
      if name.None? {
        return E_INVALIDARG;
      }
      if data.None? && byteCount != 0 {
        return E_POINTER;
      }
      var bytes := if byteCount == 0 then [] else data.value;
      RetainDeletes(name.value);
      RetainWrites(name.value);
      writes := writes + [Write(name.value, bytes)];
      return S_OK;
    }

    method SubmitBlobDelete(name: Option<Name>) returns (hr: HResult)
      modifies this`writes, this`deletes
      ensures hr == if name.None? then E_INVALIDARG else S_OK
      ensures hr != S_OK ==> View() == old(View())
      ensures hr == S_OK ==> View() == Stage(old(View()), Delete(name.value))
    {
      if name.None? {
        return E_INVALIDARG;
      }
      RetainWrites(name.value);
      deletes := deletes + [name.value];
      return S_OK;
    }

    method SubmitUpdate(w: Weather) returns (hr: HResult)
      modifies this`writes, this`deletes, folder
      ensures hr == if Succeeds(old(View()), w) then S_OK else E_FAIL
      ensures folder.files == Submitted(old(folder.files), old(View()), displayName, w)
      ensures View() == if hr == S_OK then EMPTY else old(View())
    {
      if !w.dirOk {
        return E_FAIL;
      }
      var i := 0;
      while i < |writes|
        invariant 0 <= i <= |writes|
        invariant writes == old(writes) && deletes == old(deletes)
        invariant w.failsAt.Some? ==> i <= w.failsAt.value
        invariant folder.files == Written(old(folder.files), writes[..i])
      {
        if w.failsAt == Some(i) {
          folder.files := Leave(folder.files, writes[i].name, w.leaves);
          return E_FAIL;
        }
        assert writes[..i + 1][..i] == writes[..i];
        folder.files := folder.files[writes[i].name := writes[i].bytes];
        i := i + 1;
      }
      assert writes[..i] == writes;
      ghost var written := folder.files;
      i := 0;
      while i < |deletes|
        invariant 0 <= i <= |deletes|
        invariant writes == old(writes) && deletes == old(deletes)
        invariant folder.files == Removed(written, deletes[..i], w.stuck)
      {
        assert deletes[..i + 1][..i] == deletes[..i];
        if deletes[i] !in w.stuck {
          folder.files := folder.files - {deletes[i]};
        }
        i := i + 1;
      }
      assert deletes[..i] == deletes;
      if displayName != [] {
        folder.files := Leave(folder.files, META, if w.displayFails then w.displayLeaves else Some(displayName));
      }
      writes, deletes := [], [];
      return S_OK;
    }
  }

  // ---- what operations and batches do to one name ------------------------------------

  datatype Fate = Alone | Gone | Holds(bytes: Bytes)

  function Under(fate: Fate, was: Option<Bytes>): Option<Bytes> {
    match fate
    case Alone => was
    case Gone => None
    case Holds(bytes) => Some(bytes)
  }

  // The last operation on the name decides.
  function FateOf(ops: seq<Op>, name: Name): Fate {
    if ops == [] then Alone
    else
      var last := ops[|ops| - 1];
      if last.name != name then FateOf(ops[..|ops| - 1], name) else if last.Put? then Holds(last.bytes) else Gone
  }

  function WriteFate(writes: seq<Write>, name: Name): Fate {
    if writes == [] then Alone
    else
      var last := writes[|writes| - 1];
      if last.name == name then Holds(last.bytes) else WriteFate(writes[..|writes| - 1], name)
  }

  function BatchFate(b: Batch, name: Name): Fate {
    if name in b.deletes then Gone else WriteFate(b.writes, name)
  }

  // One write per name.
  predicate Distinct(writes: seq<Write>) {
    writes == [] ||
    (Distinct(writes[..|writes| - 1]) && WriteFate(writes[..|writes| - 1], writes[|writes| - 1].name).Alone?)
  }

  // The batch does to every name what the operations do, with one write per name and no
  // name both written and deleted.
  ghost predicate Means(b: Batch, ops: seq<Op>) {
    && Distinct(b.writes)
    && (forall name :: name in b.deletes ==> WriteFate(b.writes, name).Alone?)
    && (forall name :: BatchFate(b, name) == FateOf(ops, name))
  }

  lemma {:induction false} DirectLooks(files: Files, ops: seq<Op>, name: Name)
    ensures Lookup(DirectAll(files, ops), name) == Under(FateOf(ops, name), Lookup(files, name))
  {
    if ops != [] {
      DirectLooks(files, ops[..|ops| - 1], name);
    }
  }

  lemma {:induction false} WrittenLooks(files: Files, writes: seq<Write>, name: Name)
    ensures Lookup(Written(files, writes), name) == Under(WriteFate(writes, name), Lookup(files, name))
  {
    if writes != [] {
      WrittenLooks(files, writes[..|writes| - 1], name);
    }
  }

  lemma {:induction false} RemovedLooks(files: Files, names: seq<Name>, stuck: set<Name>, name: Name)
    ensures Lookup(Removed(files, names, stuck), name) ==
              if name in names && name !in stuck then None else Lookup(files, name)
  {
    if names != [] {
      var rest, last := names[..|names| - 1], names[|names| - 1];
      RemovedLooks(files, rest, stuck, name);
      assert names == rest + [last];
    }
  }

  lemma {:induction false} WithoutFate(writes: seq<Write>, gone: Name, name: Name)
    ensures WriteFate(Without(writes, gone), name) == if name == gone then Alone else WriteFate(writes, name)
  {
    if writes != [] {
      var rest, last := Without(writes[..|writes| - 1], gone), writes[|writes| - 1];
      WithoutFate(writes[..|writes| - 1], gone, name);
      assert (rest + [last])[..|rest + [last]| - 1] == rest;
    }
  }

  lemma DistinctSnoc(writes: seq<Write>, last: Write)
    requires Distinct(writes) && WriteFate(writes, last.name).Alone?
    ensures Distinct(writes + [last])
  {
    var longer := writes + [last];
    assert longer[..|longer| - 1] == writes && longer[|longer| - 1] == last;
  }

  lemma {:induction false} WithoutDistinct(writes: seq<Write>, gone: Name)
    requires Distinct(writes)
    ensures Distinct(Without(writes, gone))
  {
    if writes != [] {
      var before, last := writes[..|writes| - 1], writes[|writes| - 1];
      WithoutDistinct(before, gone);
      if last.name != gone {
        WithoutFate(before, gone, last.name);
        DistinctSnoc(Without(before, gone), last);
      }
    }
  }

  lemma {:induction false} WithoutNameIn(names: seq<Name>, gone: Name, name: Name)
    ensures name in WithoutName(names, gone) <==> name in names && name != gone
  {
    if names != [] {
      var rest, last := names[..|names| - 1], names[|names| - 1];
      WithoutNameIn(rest, gone, name);
      assert names == rest + [last];
    }
  }

  lemma {:induction false} WritesNeverDelete(writes: seq<Write>, name: Name)
    ensures !WriteFate(writes, name).Gone?
  {
    if writes != [] {
      WritesNeverDelete(writes[..|writes| - 1], name);
    }
  }

  lemma FateSnoc(ops: seq<Op>, op: Op, name: Name)
    ensures FateOf(ops + [op], name) ==
              if op.name != name then FateOf(ops, name) else if op.Put? then Holds(op.bytes) else Gone
  {
    assert (ops + [op])[..|ops + [op]| - 1] == ops;
  }

  lemma StageFate(b: Batch, op: Op, name: Name)
    requires name in b.deletes ==> WriteFate(b.writes, name).Alone?
    ensures BatchFate(Stage(b, op), name) ==
              if op.name != name then BatchFate(b, name) else if op.Put? then Holds(op.bytes) else Gone
    ensures name in Stage(b, op).deletes ==> WriteFate(Stage(b, op).writes, name).Alone?
  {
    WithoutFate(b.writes, op.name, name);
    WithoutNameIn(b.deletes, op.name, name);
    var kept := Without(b.writes, op.name);
    if op.Put? {
      var more := kept + [Write(op.name, op.bytes)];
      assert more[..|more| - 1] == kept;
    }
  }

  // Staging an operation adds exactly that operation to what the batch means.
  lemma StageMeans(b: Batch, ops: seq<Op>, op: Op)
    requires Means(b, ops)
    ensures Means(Stage(b, op), ops + [op])
  {
    var r, kept := Stage(b, op), Without(b.writes, op.name);
    forall name
      ensures BatchFate(r, name) == FateOf(ops + [op], name)
      ensures name in r.deletes ==> WriteFate(r.writes, name).Alone?
    {
      StageFate(b, op, name);
      FateSnoc(ops, op, name);
    }
    WithoutDistinct(b.writes, op.name);
    WithoutFate(b.writes, op.name, op.name);
    if op.Put? {
      assert r.writes[..|r.writes| - 1] == kept;
    }
  }

  // ---- failed submits ----------------------------------------------------------------

  lemma {:induction false} PrefixTouchesLess(writes: seq<Write>, k: nat, name: Name)
    requires k < |writes| && WriteFate(writes, name).Alone?
    ensures WriteFate(writes[..k], name).Alone? && writes[k].name != name
    decreases |writes|
  {
    var n := |writes| - 1;
    if k < n {
      assert writes[..n][..k] == writes[..k];
      PrefixTouchesLess(writes[..n], k, name);
    }
  }

  // A submit that fails leaves every name alone that the batch does not touch.
  lemma FailureTouchesOnlyTheBatch(files: Files, b: Batch, displayName: Bytes, w: Weather, name: Name)
    requires !Succeeds(b, w) && BatchFate(b, name).Alone?
    ensures Lookup(Submitted(files, b, displayName, w), name) == Lookup(files, name)
  {
    var failure := FirstFailure(w, |b.writes|);
    if w.dirOk && failure.Some? {
      PrefixTouchesLess(b.writes, failure.value, name);
      WrittenLooks(files, b.writes[..failure.value], name);
    }
  }

  // A submit succeeds exactly when the directory can be made and no write of the batch fails.
  lemma SucceedsExactly(b: Batch, w: Weather)
    ensures Succeeds(b, w) <==> w.dirOk && forall k :: 0 <= k < |b.writes| ==> w.failsAt != Some(k)
  {
    if w.failsAt.Some? && w.failsAt.value < |b.writes| {
      assert w.failsAt == Some(w.failsAt.value);
    }
  }

  lemma {:induction false} FateAt(writes: seq<Write>, i: nat)
    requires Distinct(writes) && i < |writes|
    ensures WriteFate(writes, writes[i].name) == Holds(writes[i].bytes)
    ensures forall j :: 0 <= j < |writes| && j != i ==> writes[j].name != writes[i].name
    decreases |writes|
  {
    var n := |writes| - 1;
    var before := writes[..n];
    if i < n {
      FateAt(before, i);
      assert writes[n].name != writes[i].name;
      assert forall j :: 0 <= j < n ==> writes[j] == before[j];
    } else {
      forall j | 0 <= j < n
        ensures writes[j].name != writes[n].name
      {
        FateAt(before, j);
        assert before[j] == writes[j];
      }
    }
  }

  lemma {:induction false} DistinctPrefix(writes: seq<Write>, k: nat)
    requires Distinct(writes) && k <= |writes|
    ensures Distinct(writes[..k])
    decreases |writes|
  {
    if k < |writes| {
      assert writes[..|writes| - 1][..k] == writes[..k];
      DistinctPrefix(writes[..|writes| - 1], k);
    } else {
      assert writes[..k] == writes;
    }
  }

  lemma {:induction false} FateOfAbsent(writes: seq<Write>, name: Name)
    requires forall j :: 0 <= j < |writes| ==> writes[j].name != name
    ensures WriteFate(writes, name).Alone?
  {
    if writes != [] {
      FateOfAbsent(writes[..|writes| - 1], name);
    }
  }

  // A submit whose directory cannot be made changes nothing. One whose write `k` fails has
  // done the writes before it, has left what the file system left under that name, and has
  // done none of the writes after it and none of the deletes.
  lemma FailedSubmitStopsAt(files: Files, b: Batch, displayName: Bytes, w: Weather, k: nat)
    requires Distinct(b.writes) && (w.dirOk ==> w.failsAt == Some(k) && k < |b.writes|)
    ensures var r := Submitted(files, b, displayName, w);
            && (!w.dirOk ==> r == files)
            && (w.dirOk ==> Lookup(r, b.writes[k].name) == w.leaves)
            && (w.dirOk ==> forall i :: 0 <= i < k ==> Lookup(r, b.writes[i].name) == Some(b.writes[i].bytes))
            && (w.dirOk ==> forall i :: k < i < |b.writes| ==>
                  Lookup(r, b.writes[i].name) == Lookup(files, b.writes[i].name))
            && (w.dirOk ==> forall name :: name in b.deletes && WriteFate(b.writes, name).Alone? ==>
                  Lookup(r, name) == Lookup(files, name))
  {
    if w.dirOk {
      var done := b.writes[..k];
      DistinctPrefix(b.writes, k);
      forall i | 0 <= i < |b.writes| && i != k
        ensures b.writes[i].name != b.writes[k].name
        ensures Lookup(Written(files, done), b.writes[i].name) ==
                  if i < k then Some(b.writes[i].bytes) else Lookup(files, b.writes[i].name)
      {
        WrittenLooks(files, done, b.writes[i].name);
        FateAt(b.writes, i);
        if i < k {
          FateAt(done, i);
        } else {
          FateOfAbsent(done, b.writes[i].name);
        }
      }
      forall name | name in b.deletes && WriteFate(b.writes, name).Alone?
        ensures Lookup(Submitted(files, b, displayName, w), name) == Lookup(files, name)
      {
        PrefixTouchesLess(b.writes, k, name);
        WrittenLooks(files, done, name);
      }
    }
  }

  // A submit that succeeds gives every name the batch's fate, but for files that cannot be
  // removed and the display name.
  lemma SuccessDoesTheBatch(files: Files, b: Batch, displayName: Bytes, w: Weather, name: Name)
    requires Succeeds(b, w) && (name in b.deletes ==> WriteFate(b.writes, name).Alone?)
    requires displayName != [] ==> name != META
    ensures Lookup(Submitted(files, b, displayName, w), name) ==
              if name in b.deletes && name in w.stuck then Lookup(files, name)
              else Under(BatchFate(b, name), Lookup(files, name))
  {
    WrittenLooks(files, b.writes, name);
    RemovedLooks(Written(files, b.writes), b.deletes, w.stuck, name);
  }

  // ---- histories ---------------------------------------------------------------------

  datatype Event = Staged(op: Op) | Tried(w: Weather)

  datatype Life = Life(files: Files, batch: Batch)

  function Next(l: Life, e: Event, displayName: Bytes): Life {
    match e
    case Staged(op) => l.(batch := Stage(l.batch, op))
    case Tried(w) =>
      Life(Submitted(l.files, l.batch, displayName, w), if Succeeds(l.batch, w) then EMPTY else l.batch)
  }

  function Run(l: Life, events: seq<Event>, displayName: Bytes): Life {
    if events == [] then l else Next(Run(l, events[..|events| - 1], displayName), events[|events| - 1], displayName)
  }

  // Every submit among the events fails.
  predicate AllFail(l: Life, events: seq<Event>, displayName: Bytes) {
    events == [] ||
    var before, last := Run(l, events[..|events| - 1], displayName), events[|events| - 1];
    AllFail(l, events[..|events| - 1], displayName) && (last.Tried? ==> !Succeeds(before.batch, last.w))
  }

  function OpsOf(events: seq<Event>): seq<Op> {
    if events == [] then []
    else
      var rest, last := OpsOf(events[..|events| - 1]), events[|events| - 1];
      if last.Staged? then rest + [last.op] else rest
  }

  // Between successes, the batch means the staged operations, and the directory still holds
  // under every name they do not touch what it held at the last success.
  ghost predicate Faithful(base: Files, ops: seq<Op>, l: Life) {
    && Means(l.batch, ops)
    && (forall name :: FateOf(ops, name).Alone? ==> Lookup(l.files, name) == Lookup(base, name))
  }

  lemma {:induction false} FaithfulUntilSuccess(base: Files, events: seq<Event>, displayName: Bytes)
    requires AllFail(Life(base, EMPTY), events, displayName)
    ensures Faithful(base, OpsOf(events), Run(Life(base, EMPTY), events, displayName))
  {
    if events != [] {
      var before, last := events[..|events| - 1], events[|events| - 1];
      var l := Run(Life(base, EMPTY), before, displayName);
      FaithfulUntilSuccess(base, before, displayName);
      match last
      case Staged(op) =>
        StageMeans(l.batch, OpsOf(before), op);
        forall name
          ensures FateOf(OpsOf(before) + [op], name).Alone? ==> FateOf(OpsOf(before), name).Alone?
        {
          FateSnoc(OpsOf(before), op, name);
        }
      case Tried(w) =>
        forall name | FateOf(OpsOf(before), name).Alone?
          ensures Lookup(Submitted(l.files, l.batch, displayName, w), name) == Lookup(base, name)
        {
          FailureTouchesOnlyTheBatch(l.files, l.batch, displayName, w, name);
        }
    }
  }

  // The staged update is a transaction that survives its own failures: whatever was staged
  // since the last success, and however many submits failed part way in between, the first
  // submit that succeeds leaves the directory as if every staged operation had been carried
  // out directly, in order, on what it held at the last success. Left over are files that
  // cannot be removed, and the reserved name of a display name.
  lemma FirstSuccessIsDirectExecution(base: Files, events: seq<Event>, displayName: Bytes, w: Weather, name: Name)
    requires AllFail(Life(base, EMPTY), events, displayName)
    requires Succeeds(Run(Life(base, EMPTY), events, displayName).batch, w)
    requires displayName != [] ==> name != META
    ensures var l := Run(Life(base, EMPTY), events, displayName);
            var r := Next(l, Tried(w), displayName);
            && r.batch == EMPTY
            && Lookup(r.files, name) ==
                 if FateOf(OpsOf(events), name).Gone? && name in w.stuck then Lookup(l.files, name)
                 else Lookup(DirectAll(base, OpsOf(events)), name)
    ensures displayName != [] && !w.displayFails ==>
              Lookup(Next(Run(Life(base, EMPTY), events, displayName), Tried(w), displayName).files, META) ==
                Some(displayName)
    ensures displayName != [] && w.displayFails ==>
              Lookup(Next(Run(Life(base, EMPTY), events, displayName), Tried(w), displayName).files, META) ==
                w.displayLeaves
  {
    var l := Run(Life(base, EMPTY), events, displayName);
    FaithfulUntilSuccess(base, events, displayName);
    SuccessDoesTheBatch(l.files, l.batch, displayName, w, name);
    DirectLooks(base, OpsOf(events), name);
    WritesNeverDelete(l.batch.writes, name);
    assert BatchFate(l.batch, name) == FateOf(OpsOf(events), name);
  }

  // A name the display name does not take.
  predicate Ordinary(name: Name, displayName: Bytes) {
    displayName != [] ==> name != META
  }

  ghost predicate AgreeOnOrdinary(a: Files, b: Files, displayName: Bytes) {
    forall name :: Ordinary(name, displayName) ==> Lookup(a, name) == Lookup(b, name)
  }

  // The whole directory, but for the name a display name takes, is the directly executed one
  // exactly when no deleted file that cannot be removed was there to remove.
  lemma WholeDirectoryExactly(base: Files, events: seq<Event>, displayName: Bytes, w: Weather)
    requires AllFail(Life(base, EMPTY), events, displayName)
    requires Succeeds(Run(Life(base, EMPTY), events, displayName).batch, w)
    ensures var l := Run(Life(base, EMPTY), events, displayName);
            AgreeOnOrdinary(Next(l, Tried(w), displayName).files, DirectAll(base, OpsOf(events)), displayName) <==>
              forall name :: Ordinary(name, displayName) && name in w.stuck && name in l.batch.deletes ==>
                name !in l.files
    ensures var l := Run(Life(base, EMPTY), events, displayName);
            displayName == [] ==>
              (Next(l, Tried(w), displayName).files == DirectAll(base, OpsOf(events)) <==>
                 forall name :: name in w.stuck && name in l.batch.deletes ==> name !in l.files)
  {
    var l := Run(Life(base, EMPTY), events, displayName);
    var r, d := Next(l, Tried(w), displayName).files, DirectAll(base, OpsOf(events));
    FaithfulUntilSuccess(base, events, displayName);
    forall name | Ordinary(name, displayName)
      ensures Lookup(r, name) ==
                if name in l.batch.deletes && name in w.stuck then Lookup(l.files, name) else Lookup(d, name)
      ensures name in l.batch.deletes ==> Lookup(d, name) == None
    {
      FirstSuccessIsDirectExecution(base, events, displayName, w, name);
      DirectLooks(base, OpsOf(events), name);
      WritesNeverDelete(l.batch.writes, name);
      assert BatchFate(l.batch, name) == FateOf(OpsOf(events), name);
    }
    SameLooks(r, d);
  }

  lemma SameLooks(a: Files, b: Files)
    ensures a == b <==> forall name :: Lookup(a, name) == Lookup(b, name)
  {
    if forall name :: Lookup(a, name) == Lookup(b, name) {
      forall name
        ensures name in a <==> name in b
        ensures name in a && name in b ==> a[name] == b[name]
      {
        assert Lookup(a, name) == Lookup(b, name);
      }
      assert a.Keys == b.Keys;
    }
  }
}
