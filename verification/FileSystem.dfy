/** The file system behind the OS calls of DS: names, the files they stand for, and handles. A name that is
    opened again is emptied, a move replaces what stood under the new name, and a handle goes on
    writing into its file whatever has become of the file's name. */
module FileSystem {
  import opened FileName
  import opened FileFormat

  /** An OS call that changed the file system, as far as it got. */
  datatype Op =
    | Create(handle: nat, name: string) // OS_OpenCreate with OS_FILE_FLAG_CREATE | OS_FILE_FLAG_TRUNCATE
    | Write(handle: nat, at: nat, bytes: Bytes)
    | Move(from: string, to: string)

  /** `life` is the number of the call that created or emptied the file; None once a handle
      from before that call has written into it. */
  datatype Node = Node(life: Option<nat>, data: Bytes)

  /** An open handle: its file, and the number of the call that opened it. */
  datatype Fd = Fd(node: nat, life: nat)

  datatype Disk = Disk(dir: map<string, nat>, nodes: seq<Node>, fds: map<nat, Fd>)

  /** Writes `b` at `at`, behind zeros if the file is shorter. */
  function Patch(data: Bytes, at: nat, b: Bytes): Bytes {
    Overlay(if at <= |data| then data else data + seq(at - |data|, i => 0), at, b)
  }

  /** Call number `k`. */
  function Do(disk: Disk, op: Op, k: nat): Disk {
    match op
    case Create(h, name) =>
      if name in disk.dir && disk.dir[name] < |disk.nodes| then
        var n := disk.dir[name];
        disk.(nodes := disk.nodes[n := Node(Some(k), [])], fds := disk.fds[h := Fd(n, k)])
      else
        var n := |disk.nodes|;
        Disk(disk.dir[name := n], disk.nodes + [Node(Some(k), [])], disk.fds[h := Fd(n, k)])
    case Write(h, at, b) =>
      if b != [] && h in disk.fds && disk.fds[h].node < |disk.nodes| then
        var fd := disk.fds[h];
        var node := disk.nodes[fd.node];
        var life := if node.life == Some(fd.life) then node.life else None;
        disk.(nodes := disk.nodes[fd.node := Node(life, Patch(node.data, at, b))])
      else disk
    case Move(from, to) =>
      if from in disk.dir && from != to then disk.(dir := (disk.dir - {from})[to := disk.dir[from]]) else disk
  }

  /** The file system after the calls `ops`, none of its files older than the first. */
  function Replay(ops: seq<Op>): Disk {
    if ops == [] then Disk(map[], [], map[])
    else Do(Replay(ops[..|ops| - 1]), ops[|ops| - 1], |ops| - 1)
  }

  /** The file created by call `life` stands under `name`, and no other call has emptied or spoiled it. */
  predicate Stands(disk: Disk, name: string, life: nat) {
    name in disk.dir && disk.dir[name] < |disk.nodes| && disk.nodes[disk.dir[name]].life == Some(life)
  }

  ghost predicate OnDisk(disk: Disk, life: nat) {
    exists name :: Stands(disk, name, life)
  }

  /** Wherever that file stands, it holds `data`. */
  ghost predicate Contains(disk: Disk, life: nat, data: Bytes) {
    forall name | Stands(disk, name, life) :: disk.nodes[disk.dir[name]].data == data
  }

  /** The call ends the file's presence: it empties it, moves another file to its name, or writes into it
      through a handle from before it was created. */
  predicate Destroys(disk: Disk, op: Op, life: nat) {
    match op
    case Create(_, name) => Stands(disk, name, life)
    case Move(from, to) => from in disk.dir && from != to && Stands(disk, to, life)
    case Write(h, _, b) =>
      && b != [] && h in disk.fds && disk.fds[h].life != life
      && disk.fds[h].node < |disk.nodes| && disk.nodes[disk.fds[h].node].life == Some(life)
  }

  /** Handles and names lead to files, no two names to the same one; lives are unique and below `k`, and a handle
      of a living file leads to that file. */
  ghost predicate Proper(disk: Disk, k: nat) {
    && (forall a | a in disk.dir :: disk.dir[a] < |disk.nodes|)
    && (forall a, b | a in disk.dir && b in disk.dir && a != b :: disk.dir[a] != disk.dir[b])
    && (forall h | h in disk.fds :: disk.fds[h].node < |disk.nodes| && disk.fds[h].life < k)
    && (forall h, n | h in disk.fds && 0 <= n < |disk.nodes| && disk.nodes[n].life == Some(disk.fds[h].life) ::
          disk.fds[h].node == n)
    && (forall n | 0 <= n < |disk.nodes| && disk.nodes[n].life.Some? :: disk.nodes[n].life.value < k)
    && (forall m, n | 0 <= m < n < |disk.nodes| && disk.nodes[m].life.Some? :: disk.nodes[m].life != disk.nodes[n].life)
  }

  lemma DoIsProper(disk: Disk, op: Op, k: nat)
    requires Proper(disk, k)
    ensures Proper(Do(disk, op, k), k + 1)
  {
    hide Patch;
    match op
    case Create(h, name) => CreateIsProper(disk, h, name, k);
    case Write(h, at, b) =>
    case Move(from, to) => MoveIsProper(disk, from, to, k);
  }

  lemma CreateIsProper(disk: Disk, h: nat, name: string, k: nat)
    requires Proper(disk, k)
    ensures Proper(Do(disk, Create(h, name), k), k + 1)
  {
    var disk' := Do(disk, Create(h, name), k);
    var n := disk'.dir[name];
    assert disk'.fds == disk.fds[h := Fd(n, k)] && |disk.nodes| <= |disk'.nodes| <= |disk.nodes| + 1;
    assert disk'.nodes[n] == Node(Some(k), []);
    assert forall m | 0 <= m < |disk'.nodes| && m != n :: m < |disk.nodes| && disk'.nodes[m] == disk.nodes[m];
    assert forall a | a in disk'.dir && a != name :: a in disk.dir && disk'.dir[a] == disk.dir[a];
  }

  /** What a creation leaves behind: an empty file of its own life under the name, and its handle. */
  lemma NewFileOnDisk(disk: Disk, h: nat, name: string, k: nat)
    requires Proper(disk, k)
    ensures var disk' := Do(disk, Create(h, name), k);
            Stands(disk', name, k) && Contains(disk', k, []) && h in disk'.fds && disk'.fds[h].life == k
  {
    var disk' := Do(disk, Create(h, name), k);
    var n := disk'.dir[name];
    assert forall m | 0 <= m < |disk'.nodes| && m != n :: disk'.nodes[m] == disk.nodes[m];
  }

  lemma MoveIsProper(disk: Disk, from: string, to: string, k: nat)
    requires Proper(disk, k)
    ensures Proper(Do(disk, Move(from, to), k), k + 1)
  {
    var disk' := Do(disk, Move(from, to), k);
    assert disk'.nodes == disk.nodes && disk'.fds == disk.fds;
    assert forall a | a in disk'.dir && disk' != disk && a != to ::
             a in disk.dir && a != from && disk'.dir[a] == disk.dir[a];
  }

  lemma {:induction false} ReplayIsProper(ops: seq<Op>)
    ensures Proper(Replay(ops), |ops|)
  {
    if ops != [] {
      ReplayIsProper(ops[..|ops| - 1]);
      DoIsProper(Replay(ops[..|ops| - 1]), ops[|ops| - 1], |ops| - 1);
    }
  }

  /** Exactly which calls end a file's presence; nothing brings a file back. */
  lemma DestroysIff(disk: Disk, op: Op, k: nat, life: nat)
    requires Proper(disk, k) && life < k
    ensures OnDisk(Do(disk, op, k), life) <==> OnDisk(disk, life) && !Destroys(disk, op, life)
  {
    hide Patch;
    var disk' := Do(disk, op, k);
    forall name | Stands(disk', name, life) ensures OnDisk(disk, life) && !Destroys(disk, op, life) {
      if op.Move? && name == op.to && op.from in disk.dir && op.from != op.to {
        assert Stands(disk, op.from, life);
      } else {
        assert Stands(disk, name, life);
      }
    }
    forall name | Stands(disk, name, life) && !Destroys(disk, op, life) ensures OnDisk(disk', life) {
      if op.Move? && name == op.from && op.from != op.to {
        assert Stands(disk', op.to, life);
      } else {
        assert Stands(disk', name, life);
      }
    }
  }

  /** Only its own handle changes what a file holds. */
  predicate OwnWrite(disk: Disk, op: Op, life: nat) {
    op.Write? && op.handle in disk.fds && disk.fds[op.handle].life == life
  }

  lemma OthersKeepContents(disk: Disk, op: Op, k: nat, life: nat, data: Bytes)
    requires Proper(disk, k) && life < k && Contains(disk, life, data) && !OwnWrite(disk, op, life)
    ensures Contains(Do(disk, op, k), life, data)
  {
    var disk' := Do(disk, op, k);
    forall name | Stands(disk', name, life) ensures disk'.nodes[disk'.dir[name]].data == data {
      if op.Move? && name == op.to && op.from in disk.dir && op.from != op.to {
        assert Stands(disk, op.from, life);
      } else {
        assert Stands(disk, name, life);
      }
    }
  }

  /** A closed file is on disk after the calls if and only if it was before and none of them destroyed it. */
  lemma {:induction false} OnDiskIff(ops: seq<Op>, m: nat, n: nat, life: nat)
    requires life < m <= n <= |ops|
    ensures OnDisk(Replay(ops[..n]), life) <==>
            OnDisk(Replay(ops[..m]), life) && forall q | m <= q < n :: !Destroys(Replay(ops[..q]), ops[q], life)
    decreases n
  {
    hide Do, Replay, OnDisk, Destroys, Proper;
    if m < n {
      OnDiskIff(ops, m, n - 1, life);
      ReplayStep(ops, n - 1);
      ReplayIsProper(ops[..n - 1]);
      DestroysIff(Replay(ops[..n - 1]), ops[n - 1], n - 1, life);
    }
  }

  lemma ReplayStep(ops: seq<Op>, n: nat)
    requires n < |ops|
    ensures Replay(ops[..n + 1]) == Do(Replay(ops[..n]), ops[n], n)
  {
    assert ops[..n + 1][..n] == ops[..n];
  }
}
