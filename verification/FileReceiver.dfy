/** A file sent over a data channel: announced with its size, received in chunks, played once complete. */
module FileReceiver {
  import opened Sequences
  import opened Wrappers

  /** The chunks that are taken: up to the one that brings the total to the announced size, and none after it. */
  function Accepted(chunks: seq<seq<int>>, missing: int): seq<seq<int>> {
    if chunks == [] || missing == 0 then [] else [chunks[0]] + Accepted(chunks[1..], missing - |chunks[0]|)
  }

  /** Writing from the start over what a file held. */
  function Overlay(base: seq<int>, written: seq<int>): seq<int> {
    written + if |written| <= |base| then base[|written|..] else []
  }

  // ---------- what is taken ----------

  lemma {:induction false} AcceptedNext(chunks: seq<seq<int>>, missing: int, chunk: seq<int>)
    ensures var got := |Concat(Accepted(chunks, missing))|;
      Accepted(chunks + [chunk], missing) ==
        if got == missing then Accepted(chunks, missing) else Accepted(chunks, missing) + [chunk]
  {
    if chunks == [] {
      assert [chunk][1..] == [] && chunks + [chunk] == [chunk];
    } else if missing != 0 {
      assert (chunks + [chunk])[1..] == chunks[1..] + [chunk];
      AcceptedNext(chunks[1..], missing - |chunks[0]|, chunk);
      assert Accepted(chunks, missing)[1..] == Accepted(chunks[1..], missing - |chunks[0]|);
    }
  }

  /** A file is complete exactly when some of its first chunks make up the announced size. */
  lemma {:induction false} CompleteIff(chunks: seq<seq<int>>, missing: int)
    ensures |Concat(Accepted(chunks, missing))| == missing <==>
      exists k :: 0 <= k <= |chunks| && |Concat(chunks[..k])| == missing
  {
    if chunks == [] || missing == 0 {
      assert chunks[..0] == [] && Concat(chunks[..0]) == [];
      if missing != 0 {
        assert forall k :: 0 <= k <= |chunks| ==> chunks[..k] == [];
      }
    } else {
      var rest, less := chunks[1..], missing - |chunks[0]|;
      CompleteIff(rest, less);
      assert Accepted(chunks, missing)[1..] == Accepted(rest, less);
      if k :| 0 <= k <= |rest| && |Concat(rest[..k])| == less {
        assert chunks[..k + 1][1..] == rest[..k];
      }
      if k :| 0 <= k <= |chunks| && |Concat(chunks[..k])| == missing {
        assert k > 0 && chunks[..k][1..] == rest[..k - 1];
      }
    }
  }

  /** When the chunks add up to the size, all their bytes are taken. */
  lemma {:induction false} AllAccepted(chunks: seq<seq<int>>, missing: int)
    requires |Concat(chunks)| == missing
    ensures Concat(Accepted(chunks, missing)) == Concat(chunks)
  {
    if chunks != [] && missing != 0 {
      AllAccepted(chunks[1..], missing - |chunks[0]|);
      assert Accepted(chunks, missing)[1..] == Accepted(chunks[1..], missing - |chunks[0]|);
    }
  }

  // ---------- files and descriptors ----------

  datatype Handle = Handle(path: string, offset: nat)

  /** The operating system's part: file contents, and where each open descriptor writes next. */
  class System {
    var files: map<string, seq<int>>
    var open: map<int, Handle>

    constructor (held: map<string, seq<int>>)
      ensures files == held && open == map[]
    {
      files, open := held, map[];
    }

    method Remove(path: string)
      modifies this`files
      ensures files == old(files) - {path}
    {
      files := files - {path};
    }

    /** Opens for writing; creates a file that is not there and leaves one that is as it was. */
    method Open(path: string, granted: int)
      requires granted >= 0 && granted !in open
      modifies this
      ensures open == old(open)[granted := Handle(path, 0)]
      ensures files == old(files)[path := if path in old(files) then old(files)[path] else []]
    {
      if path !in files {
        files := files[path := []];
      }
      open := open[granted := Handle(path, 0)];
    }

    /** Writes all of the data where the descriptor stands. */
    method Write(fd: int, data: seq<int>)
      requires fd in open && open[fd].path in files && open[fd].offset <= |files[open[fd].path]|
      modifies this
      ensures var h := old(open)[fd];
        && open == old(open)[fd := Handle(h.path, h.offset + |data|)]
        && files == old(files)[h.path := old(files)[h.path][..h.offset] + Overlay(old(files)[h.path][h.offset..], data)]
    {
      var h := open[fd];
      files := files[h.path := files[h.path][..h.offset] + Overlay(files[h.path][h.offset..], data)];
      open := open[fd := Handle(h.path, h.offset + |data|)];
    }

    method Close(fd: int)
      requires fd in open
      modifies this`open
      ensures open == old(open) - {fd}
    {
      open := open - {fd};
    }
  }

  lemma OverlayNext(base: seq<int>, written: seq<int>, data: seq<int>)
    ensures var held := Overlay(base, written);
      held[..|written|] + Overlay(held[|written|..], data) == Overlay(base, written + data)
  {
    var held := Overlay(base, written);
    assert held[..|written|] == written;
    if |written| <= |base| {
      assert held[|written|..] == base[|written|..];
    }
  }

  /** The file holds what was written and nothing else exactly when what it held before was no longer. */
  lemma OverlayIsWritten(base: seq<int>, written: seq<int>)
    ensures Overlay(base, written) == written <==> |base| <= |written|
  {
  }

  lemma NothingTaken(missing: int, base: seq<int>)
    ensures Concat(Accepted([], missing)) == [] && Overlay(base, []) == base
  {
  }

  // ---------- the receiver ----------

  /** A session's data-channel file. */
  class Receiver {
    const system: System
    var filename: Option<string>
    var fsize: int
    var fd: int
    var pos: int
    /** The names of the files handed to the player. */
    var played: seq<string>

    /** Since the last announcement: the chunks that came, what the file held then, and what had been played. */
    ghost var received: seq<seq<int>>
    ghost var base: seq<int>
    ghost var playedBefore: seq<string>

    ghost function Taken(): seq<int>
      reads this
    {
      Concat(Accepted(received, fsize))
    }

    /** Whether the announced size has been reached by writing. */
    ghost predicate Complete()
      reads this
    {
      fsize != 0 && |Taken()| == fsize
    }

    ghost predicate Valid()
      reads this, system
    {
      fd > 0 ==>
        && filename.Some? && filename.value in system.files
        && pos == |Taken()|
        && system.files[filename.value] == Overlay(base, Taken())
        && (fd in system.open <==> !Complete())
        && (fd in system.open ==> system.open[fd] == Handle(filename.value, pos))
        && played == if Complete() then playedBefore + [filename.value] else playedBefore
    }

    constructor (system: System)
      ensures Valid() && this.system == system && filename == None && fd == 0 && played == []
    {
      this.system := system;
      filename, fsize, fd, pos, played := None, 0, 0, 0, [];
      received, base, playedBefore := [], [], [];
    }

    /** A "sendfile" message: drops the last file and opens the next. `granted` is what open returns, negative when it
        fails. */
    method Announce(name: string, size: int, granted: int)
      requires granted !in system.open
      modifies this, system
      ensures Valid() && filename == Some("/tmp/" + name) && fsize == size && fd == granted && pos == 0
      ensures received == [] && played == playedBefore == old(played)
      ensures old(filename).Some? && old(filename) != filename ==> old(filename).value !in system.files
      ensures granted >= 0 ==>
        base == if old(filename) != filename && filename.value in old(system.files)
                then old(system.files)[filename.value] else []
    {
      hide Concat, Accepted, Overlay;
      if filename != None {
        system.Remove(filename.value);
        filename := None;
      }
      filename := Some("/tmp/" + name);
      fsize := size;
      base := if filename.value in system.files then system.files[filename.value] else [];
      if granted >= 0 {
        system.Open(filename.value, granted);
      }
      fd := granted;
      pos := 0;
      received, playedBefore := [], played;
      NothingTaken(size, base);
    }

    /** A chunk of data: written while the size has not been reached; the one that reaches it closes the file and has
        it played. */
    method Data(chunk: seq<int>)
      requires Valid()
      modifies this`pos, this`played, this`received, system
      ensures Valid() && received == old(received) + [chunk]
      ensures old(fd <= 0 || pos == fsize) ==>
        && system.files == old(system.files) && system.open == old(system.open)
        && played == old(played) && pos == old(pos)
    {
      ghost var taken := Taken();
      AcceptedNext(received, fsize, chunk);
      ConcatSnoc(Accepted(received, fsize), chunk);
      received := received + [chunk];
      if fd > 0 {
        if pos != fsize {
          OverlayNext(base, taken, chunk);
          system.Write(fd, chunk);
          pos := pos + |chunk|;
          if pos == fsize {
            system.Close(fd);
            played := played + [filename.value];
          }
        }
      }
    }
  }

  /** Chunks that add up to a positive announced size leave the file closed and played once, and holding exactly
      their bytes if and only if no longer file of that name was there. */
  lemma WholeFileArrives(r: Receiver)
    requires r.Valid() && r.fd > 0 && r.fsize > 0 && |Concat(r.received)| == r.fsize
    ensures r.fd !in r.system.open && r.played == r.playedBefore + [r.filename.value] && r.pos == r.fsize
    ensures r.system.files[r.filename.value] == Overlay(r.base, Concat(r.received))
    ensures r.system.files[r.filename.value] == Concat(r.received) <==> |r.base| <= r.fsize
  {
    AllAccepted(r.received, r.fsize);
    OverlayIsWritten(r.base, Concat(r.received));
  }

  /** For example: two bytes sent under a name that a three-byte file already has leave its third byte behind them,
      while the file counts as complete. */
  method LongerFileShows() returns (system: System, r: Receiver)
    ensures r.Valid() && r.system == system && "/tmp/a" in system.files && system.files["/tmp/a"] == [9, 9, 3]
    ensures r.received == [[9, 9]] && r.fsize == 2 && r.pos == 2 && r.played == ["/tmp/a"]
  {
    assert "/tmp/" + "a" == "/tmp/a";
    system := new System(map["/tmp/a" := [1, 2, 3]]);
    r := new Receiver(system);
    r.Announce("a", 2, 5);
    r.Data([9, 9]);
    assert Concat(r.received) == [9, 9] by {
      assert [[9, 9]][1..] == [];
    }
    WholeFileArrives(r);
  }
}
