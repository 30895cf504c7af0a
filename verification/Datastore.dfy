/** The datastore of src/datastore.c: a doubly linked list of open sessions over a file system.
    `entries` is what its nodes hold, and `View` the map that stands for. */
module Datastore {
  import opened Base
  import opened DatastoreSpec
  import opened AssocList

  /** The part of stdio and stat that the datastore uses, over an abstract disk. */
  class FileSystem {
    var files: map<Path, seq<byte>>
    var env: Env

    constructor (files: map<Path, seq<byte>>, env: Env)
      ensures this.files == files && this.env == env
    {
      this.files, this.env := files, env;
    }

    /** fopen: mode "w" creates or truncates. */
    method Fopen(p: Path, mode: IoMode) returns (ok: bool)
      requires mode == Reading ==> p in files
      modifies this`files
      ensures ok == env.canOpen(p)
      ensures files == if ok && mode == Writing then old(files)[p := []] else old(files)
    {
      ok := env.canOpen(p);
      if ok && mode == Writing {
        files := files[p := []];
      }
    }

    /** fread at an offset; `None` stands for ferror. */
    function Fread(p: Path, mode: IoMode, off: nat, n: nat): Option<seq<byte>>
      requires p in files
      reads this
    {
      if mode == Writing || !env.canRead(p) then None else Some(Take(Drop(files[p], off), n))
    }

    /** fwrite at an offset: as much as the disk and the mode allow. */
    method Fwrite(p: Path, mode: IoMode, off: nat, data: seq<byte>) returns (w: nat)
      modifies this`files
      ensures w == Writable(env, p, Handle(mode, off), |data|)
      ensures files == old(files)[p := Splice(if p in old(files) then old(files)[p] else [], off, data[..w])]
    {
      w := Writable(env, p, Handle(mode, off), |data|);
      files := files[p := Splice(if p in files then files[p] else [], off, data[..w])];
    }
  }

  class DSession {
    var next: DSession?
    var prev: DSession?
    var clid: int
    var filename: seq<byte>
    var mode: IoMode      // the open FILE: its mode and its position
    var off: nat

    /** The zeroed node of add_dsession */
    constructor ()
      ensures next == null && prev == null
    {
      next, prev, clid, filename, mode, off := null, null, 0, [], Reading, 0;
    }

    method Fill(id: int, file: seq<byte>, mode: IoMode)
      modifies this`clid, this`filename, this`mode, this`off
      ensures Entry() == ((id, file), Handle(mode, 0))
    {
      clid, filename, this.mode, off := id, file, mode, 0;
    }

    function Entry(): (DKey, Handle) reads this { ((clid, filename), Handle(mode, off)) }
  }

  class Iwds {
    const fs: FileSystem
    var dhead: DSession?
    ghost var nodes: seq<DSession>
    ghost var entries: seq<(DKey, Handle)>
    ghost var repr: set<DSession>             // the nodes of the list, and perhaps unlinked ones

    ghost function View(): Ds reads this, fs { Ds(fs.files, ToMap(entries)) }

    ghost function At(i: int): DSession? reads this { if 0 <= i < |nodes| then nodes[i] else null }

    /** The list is what its links say: no cycle, `prev` mirrors `next`. */
    ghost predicate Linked()
      reads this, repr
    {
      && dhead == At(0)
      && (forall i {:trigger nodes[i]} :: 0 <= i < |nodes| ==> nodes[i] in repr)
      && (forall i {:trigger nodes[i].next} :: 0 <= i < |nodes| ==> nodes[i].next == At(i + 1))
      && (forall i {:trigger nodes[i].prev} :: 0 <= i < |nodes| ==> nodes[i].prev == At(i - 1))
    }

    ghost predicate Valid()
      reads this, repr
    {
      Linked() && |nodes| == |entries| && UniqueKeys(entries) &&
      forall i {:trigger nodes[i]} :: 0 <= i < |nodes| ==> nodes[i].Entry() == entries[i]
    }

    constructor (fs: FileSystem)
      ensures Valid() && this.fs == fs && entries == [] && repr == {}
    {
      this.fs, dhead, nodes, repr, entries := fs, null, [], {}, [];
    }

    lemma NodesDistinct()
      requires Valid()
      ensures Distinct(nodes)
    {
    }

    /** What the node at `at` stands for */
    lemma Found(at: nat)
      requires Valid() && at < |nodes|
      ensures var n := nodes[at];
              && n in repr && (n.clid, n.filename) == entries[at].0 && entries[at].0 in View().open
              && View().open[entries[at].0] == Handle(n.mode, n.off)
    {
      MapAt(entries, at);
    }

    /** get_dsession */
    method GetDsession(id: int, file: seq<byte>) returns (pm: DSession?, ghost at: nat)
      requires Valid()
      ensures pm == null <==> (id, file) !in View().open
      ensures pm != null ==> at < |nodes| && nodes[at] == pm && entries[at].0 == (id, file)
    {
      ghost var k := (id, file);
      MapKeys(entries, k);
      pm := dhead;
      at := 0;
      while pm != null
        invariant at <= |nodes| && pm == At(at)
        invariant forall i :: 0 <= i < at ==> entries[i].0 != k
        decreases |nodes| - at
      {
        if pm.clid == id && pm.filename == file {
          break;
        }
        pm := pm.next;
        at := at + 1;
      }
    }

    /** add_dsession: a blank node in front of the list */
    method AddDsession() returns (node: DSession)
      requires Linked() && Distinct(nodes)
      modifies this`dhead, this`nodes, this`repr, repr`prev
      ensures Linked() && fresh(node) && repr == old(repr) + {node} && nodes == [node] + old(nodes)
    {
      node := new DSession();
      if dhead != null {
        dhead.prev := node;
        node.next := dhead;
      }
      dhead := node;
      nodes, repr := [node] + nodes, repr + {node};
    }

    /** create_dsession */
    method CreateDsession(id: int, file: seq<byte>, fmode: IoMode) returns (node: DSession?)
      requires Valid() && (id, file) !in View().open
      requires fmode == Reading ==> PathOf(file) in fs.files
      modifies this, repr`prev, fs`files
      ensures Valid() && fresh(repr - old(repr))
      ensures node != null <==> fs.env.canOpen(PathOf(file))
      ensures node == null ==> entries == old(entries) && fs.files == old(fs.files)
      ensures node != null ==>
                && |nodes| > 0 && node == nodes[0]
                && entries == [((id, file), Handle(fmode, 0))] + old(entries)
                && fs.files == if fmode == Writing then old(fs.files)[PathOf(file) := []] else old(fs.files)
    {
      hide ToMap, UniqueKeys;
      var ok := fs.Fopen(PathOf(file), fmode);
      if !ok {
        return null;
      }
      ConsUnique(entries, (id, file), Handle(fmode, 0));
      NodesDistinct();
      node := AddDsession();
      node.Fill(id, file, fmode);
      entries := [((id, file), Handle(fmode, 0))] + entries;
    }

    /** The unlinking part of del_dsession, by cases on the two neighbours; the node keeps its
        own links. */
    method Unlink(node: DSession, ghost at: nat)
      requires Linked() && Distinct(nodes) && at < |nodes| && node == nodes[at]
      modifies this`dhead, this`nodes, repr`next, repr`prev
      ensures Linked() && nodes == RemoveAt(old(nodes), at)
      ensures node.next == old(node.next) && node.prev == old(node.prev)
    {
      assert node.next == At(at + 1) && node.prev == At(at - 1);
      if node.prev == null && node.next != null {
        node.next.prev := null;
        dhead := node.next;
      } else if node.prev != null && node.next != null {
        node.prev.next := node.next;
        node.next.prev := node.prev;
      } else if node.prev != null && node.next == null {
        node.prev.next := null;
      } else {
        dhead := null;
      }
      ghost var was := nodes;
      nodes := RemoveAt(nodes, at);
      forall i | 0 <= i < |nodes|
        ensures nodes[i] in repr && nodes[i].next == At(i + 1) && nodes[i].prev == At(i - 1)
      {
        var j := if i < at then i else i + 1;
        assert nodes[i] == was[j] && was[j] != node;
        assert old(was[j].next) == (if j + 1 < |was| then was[j + 1] else null);
        assert old(was[j].prev) == (if j > 0 then was[j - 1] else null);
      }
    }

    /** del_dsession */
    method DelDsession(node: DSession, ghost at: nat)
      requires Valid() && at < |nodes| && node == nodes[at]
      modifies this, repr`next, repr`prev
      ensures Valid() && repr == old(repr)
      ensures nodes == RemoveAt(old(nodes), at)
      ensures View() == CloseKey(old(View()), old(entries[at].0))
    {
      RemoveUnique(entries, at);
      NodesDistinct();
      Unlink(node, at);
      entries := RemoveAt(entries, at);
    }

    /** The FILE position after an fread or fwrite. */
    method Advance(node: DSession, ghost at: nat, off: nat)
      requires Valid() && at < |nodes| && node == nodes[at]
      modifies this`entries, node`off
      ensures Valid() && entries[at].0 == old(entries[at].0)
      ensures View().open == old(View().open)[entries[at].0 := Handle(node.mode, off)]
    {
      UpdateUnique(entries, at, Handle(node.mode, off));
      node.off := off;
      entries := entries[at := (entries[at].0, Handle(node.mode, off))];
    }

    /** How both request functions find their session, or open the file and create it. */
    method FindOrCreate(id: int, file: seq<byte>, fmode: IoMode)
      returns (ses: DSession?, derr: DsErr, ghost at: nat)
      requires Valid()
      requires fmode == Reading ==> PathOf(file) in fs.files
      modifies this, repr`prev, fs`files
      ensures Valid() && fresh(repr - old(repr))
      ensures derr == if (id, file) in old(View().open) then DsOk
                      else if fmode == Writing && PathOf(file) in old(fs.files) then NotPermit
                      else if fs.env.canOpen(PathOf(file)) then DsOk else NoSession
      ensures ses == null <==> derr != DsOk
      ensures ses == null ==> View() == old(View())
      ensures ses != null ==>
                && at < |nodes| && nodes[at] == ses && entries[at].0 == (id, file)
                && (id, file) in View().open && View().open[(id, file)] == Handle(ses.mode, ses.off)
      ensures ses != null && fmode == Writing ==> View() == Opened(old(View()), (id, file))
      ensures ses != null && fmode == Reading ==>
                && fs.files == old(fs.files)
                && View().open == if (id, file) in old(View().open) then old(View().open)
                                  else old(View().open)[(id, file) := Handle(Reading, 0)]
    {
      derr := DsOk;
      ses, at := GetDsession(id, file);
      if ses == null {
        if fmode == Writing && PathOf(file) in fs.files {
          derr := NotPermit;
          return;
        }
        ConsUnique(entries, (id, file), Handle(fmode, 0));
        ses := CreateDsession(id, file, fmode);
        at := 0;
        if ses == null {
          derr := NoSession;
          return;
        }
      }
      MapAt(entries, at);
    }

    /** iwds_read */
    method Read(id: int, file: seq<byte>, dbuf: array<byte>, dlen: nat) returns (rlen: nat, derr: DsErr)
      requires Valid() && dlen <= dbuf.Length
      modifies this, repr, fs`files, dbuf
      ensures Valid() && fresh(repr - old(repr))
      ensures var r := DsRead(old(View()), fs.env, (id, file), dlen);
              && View() == r.ds && derr == r.err && rlen == |r.data| <= dlen
              && dbuf[..rlen] == r.data
    {
      hide ToMap, UniqueKeys, Linked;
      var p := PathOf(file);
      if p !in fs.files {
        return 0, NotExist;
      }
      var ses, err, at := FindOrCreate(id, file, Reading);
      if ses == null {
        return 0, err;
      }
      rlen, derr := ReadOpen(ses, at, dbuf, dlen);
    }

    /** The fread of iwds_read: an error closes the session. */
    method ReadOpen(ses: DSession, ghost at: nat, dbuf: array<byte>, dlen: nat) returns (rlen: nat, derr: DsErr)
      requires Valid() && at < |nodes| && nodes[at] == ses
      requires PathOf(ses.filename) in fs.files && dlen <= dbuf.Length
      modifies this, repr, dbuf
      ensures Valid() && repr == old(repr)
      ensures var r := DsRead(old(View()), fs.env, old(entries[at].0), dlen);
              && View() == r.ds && derr == r.err && rlen == |r.data| <= dlen
              && dbuf[..rlen] == r.data
    {
      hide ToMap, UniqueKeys, Linked;
      Found(at);
      var data := fs.Fread(PathOf(ses.filename), ses.mode, ses.off, dlen);
      if data.None? {
        DelDsession(ses, at);
        return 0, ReadFail;
      }
      PutBytes(dbuf, 0, data.value);
      Advance(ses, at, ses.off + |data.value|);
      return |data.value|, DsOk;
    }

    /** iwds_write */
    method Write(id: int, file: seq<byte>, dbuf: array<byte>, dlen: nat) returns (wlen: nat, derr: DsErr)
      requires Valid() && dlen <= dbuf.Length
      modifies this, repr, fs`files
      ensures Valid() && fresh(repr - old(repr))
      ensures var r := DsWrite(old(View()), fs.env, (id, file), old(dbuf[..dlen]));
              View() == r.ds && derr == r.err && wlen == r.wlen
    {
      hide ToMap, UniqueKeys, Linked, Splice, WriteTo;
      var data := dbuf[..dlen];
      var ses, err, at := FindOrCreate(id, file, Writing);
      if ses == null {
        return 0, err;
      }
      wlen := WriteOpen(ses, at, data);
      derr := DsOk;
    }

    /** The rest of iwds_write with its session at hand: an empty request and a short write close it. */
    method WriteOpen(ses: DSession, ghost at: nat, data: seq<byte>) returns (wlen: nat)
      requires Valid() && at < |nodes| && nodes[at] == ses
      modifies this, repr, fs`files
      ensures Valid() && repr == old(repr)
      ensures old(entries[at].0) in old(View().open)
      ensures var r := WriteTo(old(View()), fs.env, old(entries[at].0), data);
              View() == r.ds && wlen == r.wlen && r.err == DsOk
    {
      hide ToMap, UniqueKeys, Linked, Splice;
      Found(at);
      if data == [] {
        DelDsession(ses, at);
        return 0;
      }
      wlen := fs.Fwrite(PathOf(ses.filename), ses.mode, ses.off, data);
      Advance(ses, at, ses.off + wlen);
      if wlen < |data| {
        DelDsession(ses, at);
      }
    }

    /** iwds_close, as close_data calls it: closing a session that is not there is no error. */
    method Close(id: int, file: seq<byte>)
      requires Valid()
      modifies this, repr
      ensures Valid() && repr == old(repr)
      ensures View() == CloseKey(old(View()), (id, file))
    {
      var ses, at := GetDsession(id, file);
      if ses != null {
        DelDsession(ses, at);
      } else {
        assert View().open - {(id, file)} == View().open;
      }
    }

    /** iwds_isfile */
    method IsFile(file: seq<byte>) returns (found: bool)
      ensures found == (PathOf(file) in View().files)
    {
      found := PathOf(file) in fs.files;
    }
  }
}
