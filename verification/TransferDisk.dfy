/** What the receiver's disk operations keep, whoever performs them: live writer or straggler. */
module TransferDisk {
  import opened Prelude
  import opened Coverage
  import opened TransferModel

  /** Names point at inodes created under them. */
  ghost predicate DiskOk(w: World, d: Disk) {
    && (forall x :: x in d.inodes ==> d.inodes[x].owner < |w.files|)
    && (forall i :: i in d.partial ==> i < |w.files| && d.partial[i] in d.inodes && d.inodes[d.partial[i]].owner == i)
    && (forall i :: i in d.final ==> i < |w.files| && d.final[i] in d.inodes && d.inodes[d.final[i]].owner == i)
  }

  /** A writer on an inode of its own item, no longer than the item, with only true chunks to write. */
  ghost predicate GoodWriter(w: World, d: Disk, wr: Writer) {
    && wr.file < |w.files| && wr.chunkSize > 0
    && wr.inode in d.inodes && d.inodes[wr.inode].owner == wr.file
    && |d.inodes[wr.inode].bytes| <= |w.files[wr.file]|
    && forall k :: 0 <= k < |wr.pending| ==> TrueChunk(wr.pending[k], w.files[wr.file], wr.chunkSize)
  }

  /** Item `i` is finished: under its final name lies exactly the source, and there is no partial. */
  ghost predicate Finished(w: World, d: Disk, i: nat) {
    && i < |w.files| && i !in d.partial
    && i in d.final && d.final[i] in d.inodes && d.inodes[d.final[i]].bytes == w.files[i]
  }

  ghost predicate HeldOn(w: World, d: Disk, inode: nat, chunkSize: nat, index: nat) {
    && inode in d.inodes && d.inodes[inode].owner < |w.files|
    && Holds(d.inodes[inode].bytes, w.files[d.inodes[inode].owner], chunkSize, index)
  }

  /** One inode after the other: nothing true is lost, no length bound is broken. */
  ghost predicate NodeKept(w: World, d: Disk, e: Disk, x: nat) {
    x in d.inodes && d.inodes[x].owner < |w.files| ==>
      var file := w.files[d.inodes[x].owner];
      && x in e.inodes && e.inodes[x].owner == d.inodes[x].owner
      && (|d.inodes[x].bytes| <= |file| ==> |e.inodes[x].bytes| <= |file|)
      && (d.inodes[x].bytes == file ==> e.inodes[x].bytes == file)
      && forall chunkSize, i :: Holds(d.inodes[x].bytes, file, chunkSize, i) ==> Holds(e.inodes[x].bytes, file, chunkSize, i)
  }

  ghost predicate Kept(w: World, d: Disk, e: Disk) {
    forall x :: NodeKept(w, d, e, x)
  }

  lemma KeptFacts(w: World, d: Disk, e: Disk)
    requires Kept(w, d, e)
    ensures forall wr: Writer :: GoodWriter(w, d, wr) ==> GoodWriter(w, e, wr)
    ensures forall x, cs, i :: HeldOn(w, d, x, cs, i) ==> HeldOn(w, e, x, cs, i)
  {
    forall wr: Writer | GoodWriter(w, d, wr)
      ensures GoodWriter(w, e, wr)
    {
      assert NodeKept(w, d, e, wr.inode);
    }
    forall x, cs, i | HeldOn(w, d, x, cs, i)
      ensures HeldOn(w, e, x, cs, i)
    {
      assert NodeKept(w, d, e, x);
    }
  }

  lemma WriteKeeps(w: World, d: Disk, wr: Writer)
    requires DiskOk(w, d) && GoodWriter(w, d, wr) && wr.pending != []
    ensures var e := WriteFirst(d, wr);
            && DiskOk(w, e) && Kept(w, d, e) && e.partial == d.partial && e.final == d.final
            && HeldOn(w, e, wr.inode, wr.chunkSize, wr.pending[0].index)
            && (forall i :: Finished(w, d, i) ==> Finished(w, e, i))
            && (forall x :: x in e.inodes <==> x in d.inodes)
  {
    var e := WriteFirst(d, wr);
    WriteTrueChunk(d.inodes[wr.inode].bytes, w.files[wr.file], wr.chunkSize, wr.pending[0]);
    assert NodeKept(w, d, e, wr.inode);
    forall x
      ensures NodeKept(w, d, e, x)
    {
      if x != wr.inode && x in d.inodes {
        assert e.inodes[x] == d.inodes[x];
      }
    }
    forall i | Finished(w, d, i)
      ensures Finished(w, e, i)
    {
      assert NodeKept(w, d, e, d.final[i]);
    }
  }

  lemma OpenNodes(w: World, d: Disk, i: nat, newNode: nat)
    requires DiskOk(w, d) && i < |w.files| && newNode !in d.inodes
    ensures Kept(w, d, OpenPartial(w, d, i, newNode))
  {
    var e := OpenPartial(w, d, i, newNode);
    forall x
      ensures NodeKept(w, d, e, x)
    {
      if x in d.inodes {
        if i in d.partial && x == d.partial[i] {
          CutHolds(d.inodes[x].bytes, w.files[i]);
        } else {
          assert e.inodes[x] == d.inodes[x];
        }
      }
    }
  }

  /** Cutting a file to the source's length loses nothing of it. */
  lemma CutHolds(bytes: seq<byte>, file: seq<byte>)
    ensures var cut := bytes[..Min(|bytes|, |file|)];
            forall chunkSize, k :: Holds(bytes, file, chunkSize, k) ==> Holds(cut, file, chunkSize, k)
  {
  }

  lemma OpenKeeps(w: World, d: Disk, i: nat, newNode: nat)
    requires DiskOk(w, d) && i < |w.files| && newNode !in d.inodes
    ensures var e := OpenPartial(w, d, i, newNode);
            && DiskOk(w, e) && Kept(w, d, e)
            && i in e.partial && e.partial[i] in e.inodes
            && |e.inodes[e.partial[i]].bytes| <= |w.files[i]|
            && (i in d.partial ==> e.partial[i] == d.partial[i])
            && (forall j :: j != i ==> (j in e.partial <==> j in d.partial))
            && (forall j :: j != i && Finished(w, d, j) ==> Finished(w, e, j))
  {
    var e := OpenPartial(w, d, i, newNode);
    OpenNodes(w, d, i, newNode);
    forall j | j != i && Finished(w, d, j)
      ensures Finished(w, e, j)
    {
      assert e.inodes[e.final[j]] == d.inodes[d.final[j]];
    }
  }

  lemma OpenedIsPartial(w: World, d: Disk, i: nat, newNode: nat)
    requires DiskOk(w, d) && i < |w.files|
    ensures var e := OpenPartial(w, d, i, newNode);
            i in e.partial && e.partial[i] in e.inodes && e.inodes[e.partial[i]].bytes == PartialOf(w, d, i)
  {
  }

  lemma RenameKeeps(w: World, d: Disk, i: nat)
    requires DiskOk(w, d)
    ensures var e := Rename(d, i);
            && DiskOk(w, e) && Kept(w, d, e) && e.inodes == d.inodes && i !in e.partial
            && (forall j :: j in e.partial ==> j in d.partial && e.partial[j] == d.partial[j])
            && (forall j :: j != i && j in d.partial ==> j in e.partial)
            && (forall j :: Finished(w, d, j) ==> Finished(w, e, j))
  {
    var e := Rename(d, i);
    forall j | Finished(w, d, j)
      ensures Finished(w, e, j)
    {
      assert e.inodes[e.final[j]] == d.inodes[d.final[j]];
    }
  }
}
