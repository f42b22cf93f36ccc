/**
 A small file system that can lose power. File contents and directory updates reach the disk only
 when synced: a crash keeps any subset of the pending directory updates, and leaves arbitrary bytes
 in a file whose last writes were not synced.
 */
module FileSystem {
  import opened Wrappers

  /** The two names the JSON token store uses. */
  datatype Name = TokenFile | TmpFile

  datatype File = File(data: Bytes, synced: bool)

  /** Directory updates: create a link to a new inode, or rename the temporary file over the token file. */
  datatype DirOp = Link(inode: nat) | Rename(inode: nat)

  datatype Disk = Disk(
    files: map<nat, File>,
    durable: map<Name, nat>,
    pending: seq<DirOp>,
    next: nat)

  function ApplyOp(dir: map<Name, nat>, op: DirOp): map<Name, nat> {
    match op
    case Link(i) => dir[TmpFile := i]
    case Rename(i) => (dir - {TmpFile})[TokenFile := i]
  }

  /** The directory after the updates of `ops` that `kept` selects. */
  function Apply(dir: map<Name, nat>, ops: seq<DirOp>, kept: nat -> bool): map<Name, nat> {
    if |ops| == 0 then dir
    else
      var before := Apply(dir, ops[..|ops| - 1], kept);
      if kept(|ops| - 1) then ApplyOp(before, ops[|ops| - 1]) else before
  }

  predicate Always(k: nat) {
    true
  }

  /** What running programs see. */
  function View(d: Disk): map<Name, nat> {
    Apply(d.durable, d.pending, Always)
  }

  function ReadIn(files: map<nat, File>, dir: map<Name, nat>, name: Name): Option<Bytes> {
    if name in dir && dir[name] in files then Some(files[dir[name]].data) else None
  }

  function Read(d: Disk, name: Name): Option<Bytes> {
    ReadIn(d.files, View(d), name)
  }

  /** A crash keeps the updates selected by `kept`; `garbage` fills the files that were not synced. */
  function Crash(d: Disk, kept: nat -> bool, garbage: nat -> Bytes): Disk {
    Disk(map i | i in d.files :: File(if d.files[i].synced then d.files[i].data else garbage(i), true),
         Apply(d.durable, d.pending, kept), [], d.next)
  }

  /** Open for writing with O_CREATE and O_TRUNC. */
  function OpenTmp(d: Disk): (r: (Disk, nat)) {
    if TmpFile in View(d) then
      var i := View(d)[TmpFile];
      (d.(files := d.files[i := File([], false)]), i)
    else
      (d.(files := d.files[d.next := File([], false)], pending := d.pending + [Link(d.next)], next := d.next + 1),
          d.next)
  }

  function WriteFile(d: Disk, i: nat, data: Bytes): Disk {
    d.(files := d.files[i := File(data, false)])
  }

  function SyncFile(d: Disk, i: nat): Disk {
    if i in d.files then d.(files := d.files[i := d.files[i].(synced := true)]) else d
  }

  function RenameTmp(d: Disk, i: nat): Disk {
    d.(pending := d.pending + [Rename(i)])
  }

  function SyncDir(d: Disk): Disk {
    d.(durable := View(d), pending := [])
  }

  // ----- Facts about directories -----

  lemma ApplySnoc(dir: map<Name, nat>, ops: seq<DirOp>, op: DirOp, kept: nat -> bool)
    ensures Apply(dir, ops + [op], kept) ==
            if kept(|ops|) then ApplyOp(Apply(dir, ops, kept), op) else Apply(dir, ops, kept)
  {
    assert (ops + [op])[..|ops|] == ops;
  }

  /** A directory names a token file that was there before or that a rename put there. */
  lemma {:induction false} ApplyNames(dir: map<Name, nat>, ops: seq<DirOp>, kept: nat -> bool)
    ensures var r := Apply(dir, ops, kept);
            && (TokenFile in dir ==> TokenFile in r)
            && (TokenFile in r ==> (TokenFile in dir && r[TokenFile] == dir[TokenFile]) || Rename(r[TokenFile]) in ops)
            && (TmpFile in r ==> (TmpFile in dir && r[TmpFile] == dir[TmpFile]) || Link(r[TmpFile]) in ops)
    decreases |ops|
  {
    if |ops| > 0 {
      ApplyNames(dir, ops[..|ops| - 1], kept);
      assert ops == ops[..|ops| - 1] + [ops[|ops| - 1]];
    }
  }
}
