/**
 The backup store on disk, with every way a write can go wrong.

 The environment is a script of fates, one drawn by each primitive. A world also remembers
 every state the disk has been in: a crash is any of those states.

 - A credential write is atomic: it fails with the old or the new content in place
   (internal/credstore/backup.go renames a finished file; CredStore proves this of the pair
   of backends).
 - A failed credential delete may leave anything readable under the key.
 - A config or staging write truncates first, so it passes through torn content and can stop there.
 - The roster write is a rename and never tears.
 */
module SlotStore {
  import opened Basics
  import opened Rosters

  datatype StageName = CredsOf(slot: Slot) | ConfigOf(slot: Slot)

  datatype Disk = Disk(creds: map<Key, string>, configs: map<Key, string>,
                       staging: map<StageName, string>, roster: Roster)

  /** `applied` and `junk` say what a failed step left behind; `junk` is also what a torn file holds. */
  datatype Fate = Fate(ok: bool, applied: bool, junk: string)

  const SMOOTH := Fate(true, true, "")

  datatype World = World(disk: Disk, seen: seq<Disk>, fates: seq<Fate>)

  datatype Done = Done(ok: bool, w: World)

  /** An absent backup reads as the empty string. */
  function Read(m: map<Key, string>, k: Key): string {
    if k in m then m[k] else ""
  }

  datatype Material = Material(creds: string, config: string)

  function MaterialAt(d: Disk, k: Key): Material {
    Material(Read(d.creds, k), Read(d.configs, k))
  }

  function Draw(w: World): Fate {
    if w.fates == [] then SMOOTH else w.fates[0]
  }

  function Rest(w: World): seq<Fate> {
    if w.fates == [] then [] else w.fates[1..]
  }

  /** The disk goes through these states and stays in the last one. */
  function Through(w: World, states: seq<Disk>): World
    requires states != []
  {
    World(states[|states| - 1], w.seen + states, Rest(w))
  }

  function PutCreds(w: World, k: Key, c: string): Done {
    var f := Draw(w);
    Done(f.ok, Through(w, [if f.ok || f.applied then w.disk.(creds := w.disk.creds[k := c]) else w.disk]))
  }

  function DropCreds(w: World, k: Key): Done {
    var f := Draw(w);
    var left := if f.ok then w.disk.creds - {k}
                else if f.applied then w.disk.creds[k := f.junk] else w.disk.creds;
    Done(f.ok, Through(w, [w.disk.(creds := left)]))
  }

  function PutConfig(w: World, k: Key, c: string): Done {
    var f := Draw(w);
    var torn := w.disk.(configs := w.disk.configs[k := f.junk]);
    Done(f.ok, Through(w, if f.ok then [torn, w.disk.(configs := w.disk.configs[k := c])]
                          else if f.applied then [torn] else [w.disk]))
  }

  function DropConfig(w: World, k: Key): Done {
    var f := Draw(w);
    Done(f.ok, Through(w, [if f.ok then w.disk.(configs := w.disk.configs - {k}) else w.disk]))
  }

  /** Creates a staging file; the caller has seen that the name is free. */
  function PutStage(w: World, name: StageName, c: string): Done {
    var f := Draw(w);
    var torn := w.disk.(staging := w.disk.staging[name := f.junk]);
    Done(f.ok, Through(w, if f.ok then [torn, w.disk.(staging := w.disk.staging[name := c])]
                          else if f.applied then [torn] else [w.disk]))
  }

  function DropStage(w: World, name: StageName): Done {
    var f := Draw(w);
    Done(f.ok, Through(w, [if f.ok then w.disk.(staging := w.disk.staging - {name}) else w.disk]))
  }

  function CommitRoster(w: World, r: Roster): Done {
    var f := Draw(w);
    Done(f.ok, Through(w, [if f.ok then w.disk.(roster := r) else w.disk]))
  }

  /** Refuses while a session-mode Claude runs on the slot; that too is the environment's choice. */
  function GuardSession(w: World): Done {
    Done(Draw(w).ok, Through(w, [w.disk]))
  }

  /** Empty material is a required clear, anything else a write. */
  function WriteOrClearCreds(w: World, k: Key, c: string): Done {
    if c != "" then PutCreds(w, k, c) else DropCreds(w, k)
  }

  function WriteOrClearConfig(w: World, k: Key, c: string): Done {
    if c != "" then PutConfig(w, k, c) else DropConfig(w, k)
  }

  /** The store as the commands see it: files they update in place. */
  class Store {
    var creds: map<Key, string>
    var configs: map<Key, string>
    var staging: map<StageName, string>
    var roster: Roster
    var fates: seq<Fate>
    ghost var seen: seq<Disk>

    ghost function W(): World
      reads this
    {
      World(Disk(creds, configs, staging, roster), seen, fates)
    }

    constructor (d: Disk, script: seq<Fate>)
      ensures W() == World(d, [d], script)
    {
      creds, configs, staging, roster, fates := d.creds, d.configs, d.staging, d.roster, script;
      seen := [d];
    }

    method NextFate() returns (f: Fate)
      modifies this`fates
      ensures f == Draw(old(W())) && fates == Rest(old(W()))
    {
      f := SMOOTH;
      if fates != [] {
        f := fates[0];
        fates := fates[1..];
      }
    }

    function ReadCreds(k: Key): (c: string)
      reads this
      ensures c == MaterialAt(W().disk, k).creds
    {
      Read(creds, k)
    }

    function ReadConfig(k: Key): (c: string)
      reads this
      ensures c == MaterialAt(W().disk, k).config
    {
      Read(configs, k)
    }

    method WriteCreds(k: Key, c: string) returns (ok: bool)
      modifies this
      ensures Done(ok, W()) == PutCreds(old(W()), k, c)
    {
      var f := NextFate();
      if f.ok || f.applied { creds := creds[k := c]; }
      seen := seen + [W().disk];
      ok := f.ok;
    }

    method DeleteCreds(k: Key) returns (ok: bool)
      modifies this
      ensures Done(ok, W()) == DropCreds(old(W()), k)
    {
      var f := NextFate();
      if f.ok { creds := creds - {k}; } else if f.applied { creds := creds[k := f.junk]; }
      seen := seen + [W().disk];
      ok := f.ok;
    }

    method WriteConfig(k: Key, c: string) returns (ok: bool)
      modifies this
      ensures Done(ok, W()) == PutConfig(old(W()), k, c)
    {
      var f := NextFate();
      var before := configs;
      if f.ok || f.applied { configs := before[k := f.junk]; }
      seen := seen + [W().disk];
      if f.ok {
        configs := before[k := c];
        seen := seen + [W().disk];
      }
      ok := f.ok;
    }

    method DeleteConfig(k: Key) returns (ok: bool)
      modifies this
      ensures Done(ok, W()) == DropConfig(old(W()), k)
    {
      var f := NextFate();
      if f.ok { configs := configs - {k}; }
      seen := seen + [W().disk];
      ok := f.ok;
    }

    method CreateStage(name: StageName, c: string) returns (ok: bool)
      requires name !in staging
      modifies this
      ensures Done(ok, W()) == PutStage(old(W()), name, c)
    {
      var f := NextFate();
      var before := staging;
      if f.ok || f.applied { staging := before[name := f.junk]; }
      seen := seen + [W().disk];
      if f.ok {
        staging := before[name := c];
        seen := seen + [W().disk];
      }
      ok := f.ok;
    }

    method RemoveStage(name: StageName) returns (ok: bool)
      modifies this
      ensures Done(ok, W()) == DropStage(old(W()), name)
    {
      var f := NextFate();
      if f.ok { staging := staging - {name}; }
      seen := seen + [W().disk];
      ok := f.ok;
    }

    method WriteSequence(r: Roster) returns (ok: bool)
      modifies this
      ensures Done(ok, W()) == CommitRoster(old(W()), r)
    {
      var f := NextFate();
      if f.ok { roster := r; }
      seen := seen + [W().disk];
      ok := f.ok;
    }

    method EnsureNoLiveSession() returns (ok: bool)
      modifies this
      ensures Done(ok, W()) == GuardSession(old(W()))
    {
      var f := NextFate();
      seen := seen + [W().disk];
      ok := f.ok;
    }

    method PutOrClearCreds(k: Key, c: string) returns (ok: bool)
      modifies this
      ensures Done(ok, W()) == WriteOrClearCreds(old(W()), k, c)
    {
      if c != "" { ok := WriteCreds(k, c); } else { ok := DeleteCreds(k); }
    }

    method PutOrClearConfig(k: Key, c: string) returns (ok: bool)
      modifies this
      ensures Done(ok, W()) == WriteOrClearConfig(old(W()), k, c)
    {
      if c != "" { ok := WriteConfig(k, c); } else { ok := DeleteConfig(k); }
    }
  }
}
