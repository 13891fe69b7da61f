/** The watermark file: stream epochs that survive restarts, and proof of ownership of the
    process groups a dead daemon left behind. */
module Watermarks {
  import opened Frames
  import opened BufferSpec

  datatype Mark = Mark(epoch: nat, pgid: int, fingerprint: Option<string>)

  /** What is found under the watermark's name. */
  datatype File = Missing | Unreadable | Corrupt | Holds(identity: Option<nat>, chats: map<ChatId, Mark>)

  /** The records a daemon starts from: a missing or damaged file counts as empty. */
  function Loaded(f: File): map<ChatId, Mark> {
    if f.Holds? then f.chats else map[]
  }

  function LoadedIdentity(f: File): Option<nat> {
    if f.Holds? then f.identity else None
  }

  function Epochs(m: map<ChatId, Mark>): map<ChatId, nat> {
    map c | c in m :: m[c].epoch
  }

  /** The record of a process that no longer gives authority over any process group. */
  function Disowned(m: Mark): Mark {
    m.(pgid := 0, fingerprint := None)
  }

  class Watermark {
    var identity: Option<nat>
    var chats: map<ChatId, Mark>
    var file: File

    /** Starts from what is stored. */
    constructor (file: File)
      ensures this.file == file && chats == Loaded(file) && identity == LoadedIdentity(file)
    {
      this.file := file;
      chats, identity := Loaded(file), LoadedIdentity(file);
    }

    /** Replaces the file by a complete new one, or leaves the old one. */
    method Write(ok: bool)
      modifies `file
      ensures file == if ok then Holds(identity, chats) else old(file)
    {
      if ok {
        file := Holds(identity, chats);
      }
    }

    /** A failed write still leaves the record in memory, and the next one that works stores it. */
    method Record(c: ChatId, m: Mark, ok: bool)
      modifies `chats, `file
      ensures chats == old(chats)[c := m]
      ensures file == if ok then Holds(identity, chats) else old(file)
      ensures Epochs(chats) == Epochs(old(chats))[c := m.epoch]
      ensures ok ==> Loaded(file) == chats
    {
      chats := chats[c := m];
      Write(ok);
    }

    /** Gives up authority over every process group and keeps every epoch. */
    method FinalizeStartup(id: nat, ok: bool)
      modifies this
      ensures identity == Some(id) && chats.Keys == old(chats).Keys
      ensures forall c :: c in chats ==> chats[c] == Disowned(old(chats)[c])
      ensures Epochs(chats) == Epochs(old(chats))
      ensures file == if ok then Holds(identity, chats) else old(file)
    {
      identity := Some(id);
      var todo := chats.Keys;
      ghost var was := chats;
      while todo != {}
        invariant identity == Some(id) && file == old(file)
        invariant todo <= chats.Keys == was.Keys
        invariant forall c :: c in chats ==> chats[c] == if c in todo then was[c] else Disowned(was[c])
        decreases todo
      {
        var c :| c in todo;
        chats := chats[c := Disowned(chats[c])];
        todo := todo - {c};
      }
      Write(ok);
    }
  }

  datatype Started = Failed(signalled: set<int>) | Started(watermark: Watermark, bufferLost: bool, killed: set<int>)

  /** A leftover process group may be signalled: the record was written in this very directory
      and the group's leader is still the process it names. */
  predicate Owned(m: Mark, sameDir: bool, alive: int -> Option<string>) {
    m.pgid > 0 && sameDir && m.fingerprint.Some? && m.fingerprint == alive(m.pgid)
  }

  function OwnedGroups(m: map<ChatId, Mark>, sameDir: bool, alive: int -> Option<string>): set<int> {
    set c | c in m && Owned(m[c], sameDir, alive) :: m[c].pgid
  }

  /** Daemon start: signals the groups it can prove it owns, drops buffered frames, keeps the
      epochs. `dirOk` and `lockOk` say whether the data directory can be made and its owner
      lock taken, `identity` is the directory's identity if it can be read; `alive` maps a
      process group to its leader's fingerprint. */
  method StartupCleanup(dirOk: bool, lockOk: bool, identity: Option<nat>, f: File, bufferDir: bool,
                        alive: int -> Option<string>, removeOk: bool, writeOk: bool)
    returns (r: Started)
    ensures r.Failed? <==>
      !dirOk || !lockOk || identity.None? || f.Unreadable? || (bufferDir && !removeOk) || !writeOk
    ensures r.Failed? && (!dirOk || !lockOk || identity.None? || f.Unreadable?) ==> r.signalled == {}
    ensures r.Failed? && dirOk && lockOk && identity.Some? && !f.Unreadable? ==>
      r.signalled == OwnedGroups(Loaded(f), LoadedIdentity(f) == identity, alive)
    ensures r.Started? ==>
      && Epochs(r.watermark.chats) == Epochs(Loaded(f))
      && r.watermark.file == Holds(identity, r.watermark.chats) && r.watermark.identity == identity
      && (forall c :: c in r.watermark.chats ==>
           r.watermark.chats[c].pgid == 0 && r.watermark.chats[c].fingerprint == None)
      && r.killed == OwnedGroups(Loaded(f), LoadedIdentity(f) == identity, alive)
      && (r.bufferLost <==> bufferDir || exists c :: c in Loaded(f) && Loaded(f)[c].pgid > 0)
  {
    if !dirOk || !lockOk || identity.None? || f.Unreadable? {
      return Failed({});
    }
    var wm := new Watermark(f);
    var sameDir := wm.identity == identity;
    var bufferLost := bufferDir || exists c :: c in wm.chats && wm.chats[c].pgid > 0;
    var killed := SignalOwned(wm.chats, sameDir, alive);
    if bufferDir && !removeOk {
      return Failed(killed);
    }
    wm.FinalizeStartup(identity.value, writeOk);
    if !writeOk {
      return Failed(killed);
    }
    return Started(wm, bufferLost, killed);
  }

  /** Which groups are signalled: those with a record of their own, written in this very directory,
      that carries a fingerprint, and the fingerprint is still that of the group's leader. */
  lemma {:induction false} SignalledIff(m: map<ChatId, Mark>, here: Option<nat>, stored: Option<nat>,
                                        alive: int -> Option<string>, g: int)
    ensures g in OwnedGroups(m, stored == here, alive) <==>
      && stored == here && g > 0 && alive(g).Some?
      && exists c :: c in m && m[c].pgid == g && m[c].fingerprint == alive(g)
  {
    if exists c :: c in m && stored == here && g > 0 && m[c].pgid == g && m[c].fingerprint.Some? && m[c].fingerprint == alive(g) {
      var c :| c in m && stored == here && g > 0 && m[c].pgid == g && m[c].fingerprint.Some? && m[c].fingerprint == alive(g);
      assert Owned(m[c], stored == here, alive);
    }
  }

  method SignalOwned(m: map<ChatId, Mark>, sameDir: bool, alive: int -> Option<string>) returns (killed: set<int>)
    ensures killed == OwnedGroups(m, sameDir, alive)
  {
    killed := {};
    var todo := m.Keys;
    ghost var rest: map<ChatId, Mark> := map[];
    while todo != {}
      invariant todo <= m.Keys && rest.Keys == m.Keys - todo && forall c :: c in rest ==> rest[c] == m[c]
      invariant killed == OwnedGroups(rest, sameDir, alive)
      decreases todo
    {
      var c :| c in todo;
      GroupsUpdate(rest, sameDir, alive, c, m[c]);
      if Owned(m[c], sameDir, alive) {
        killed := killed + {m[c].pgid};
      }
      rest, todo := rest[c := m[c]], todo - {c};
    }
    assert rest == m;
  }

  lemma GroupsUpdate(m: map<ChatId, Mark>, sameDir: bool, alive: int -> Option<string>, c: ChatId, x: Mark)
    requires c !in m
    ensures OwnedGroups(m[c := x], sameDir, alive)
         == OwnedGroups(m, sameDir, alive) + if Owned(x, sameDir, alive) then {x.pgid} else {}
  {
    var m' := m[c := x];
    forall g | g in OwnedGroups(m, sameDir, alive) ensures g in OwnedGroups(m', sameDir, alive) {
      var d :| d in m && Owned(m[d], sameDir, alive) && m[d].pgid == g;
      assert d in m' && m'[d] == m[d];
    }
    assert c in m' && m'[c] == x;
  }
}
