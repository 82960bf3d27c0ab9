/** The credential store as the program runs it: a usability cache and two backends updated in place. */
module KeychainStore {
  import opened Basics
  import opened CredStore

  class FileKeychainStore {
    const mac: bool
    var cache: Option<bool>
    var disabledUntil: Option<int>
    var kc: map<Item, string>
    var enc: map<Item, Enc>
    var script: seq<Event>

    ghost function V(): St
      reads this
    {
      St(mac, cache, disabledUntil, kc, enc, script)
    }

    constructor (s: St)
      ensures V() == s
    {
      mac, cache, disabledUntil, kc, enc, script := s.mac, s.cache, s.disabledUntil, s.kc, s.enc, s.script;
    }

    method NextEvent() returns (e: Event)
      modifies this`script
      ensures e == Next(old(V())) && V() == Spent(old(V()))
    {
      e := SMOOTH;
      if script != [] {
        e := script[0];
        script := script[1..];
      }
    }

    method UseKeychainNow() returns (use: bool)
      modifies this`script, this`cache, this`disabledUntil
      ensures Use(use, V()) == UseKeychain(old(V()))
    {
      if !mac { return false; }
      var e := NextEvent();
      if cache == Some(false) && disabledUntil.Some? && disabledUntil.value <= e.now {
        cache := None;
        disabledUntil := None;
      }
      use := cache.None? || cache.value;
    }

    method Learn(e: Event)
      modifies this`cache, this`disabledUntil
      ensures V() == Learned(old(V()), e)
    {
      match e.kc {
        case Unusable(_) =>
          cache := Some(false);
          disabledUntil := Some(e.now + RECHECK_COOLDOWN);
        case Bug(_) =>
        case Works => if cache.None? { cache := Some(true); }
      }
    }

    method KeychainSet(k: Item, c: string) returns (o: KcOutcome)
      modifies this
      ensures Call(o, V()) == KcSet(old(V()), k, c)
    {
      var e := NextEvent();
      if TookEffect(e.kc) { kc := kc[k := c]; }
      Learn(e);
      o := e.kc;
    }

    method KeychainDelete(k: Item) returns (o: KcOutcome)
      modifies this
      ensures Call(o, V()) == KcDelete(old(V()), k)
    {
      var e := NextEvent();
      if TookEffect(e.kc) { kc := kc - {k}; }
      Learn(e);
      o := e.kc;
    }

    method WriteFile(k: Item, c: string) returns (ok: bool)
      modifies this`enc, this`script
      ensures Filed(ok, V()) == WriteEnc(old(V()), k, c)
    {
      var e := NextEvent();
      if e.fileOk || e.fileApplied { enc := enc[k := Text(c)]; }
      ok := e.fileOk;
    }

    method RemoveFile(k: Item) returns (ok: bool)
      modifies this`enc, this`script
      ensures Filed(ok, V()) == RemoveEnc(old(V()), k)
    {
      var e := NextEvent();
      if e.fileOk { enc := enc - {k}; }
      ok := e.fileOk;
    }

    /** `.enc` wins; only an absent, corrupt or empty file falls through to the Keychain. */
    method Read(k: Item) returns (c: string)
      modifies this`cache, this`disabledUntil, this`script
      ensures Got(c, V()) == ReadBackup(old(V()), k)
      ensures c in {View(old(V()), k), ""}
    {
      ReadsWhatIsServed(V(), k);
      if k in enc && enc[k].Text? && enc[k].text != "" { return enc[k].text; }
      c := "";
      if mac {
        var e := NextEvent();
        Learn(e);
        if e.kc.Works? && k in kc { c := kc[k]; }
      }
    }

    method Retain(k: Item, c: string)
      modifies this
      ensures V() == RetainPrevious(old(V()), k, c)
    {
      var current := Read(k);
      if current == "" || current == c { return; }
      var use := UseKeychainNow();
      if use {
        var _ := KeychainSet(PrevOf(k), current);
      } else {
        var _ := WriteFile(PrevOf(k), current);
      }
    }

    method Write(k: Item, c: string) returns (ok: bool)
      requires !k.prev
      modifies this
      ensures Filed(ok, V()) == WriteBackup(old(V()), k, c)
      ensures c != "" ==> View(V(), k) in {View(old(V()), k), c} && (ok ==> View(V(), k) == c)
    {
      if c != "" { WriteIsAtomic(V(), k, c); }
      Retain(k, c);
      var use := UseKeychainNow();
      if use {
        var o := KeychainSet(k, c);
        if o.Works? {
          if k !in enc { return true; }
          ok := RemoveFile(k);
          if !ok { ok := WriteFile(k, c); }
          return;
        }
        if o.Bug? { return false; }
      }
      ok := WriteFile(k, c);
      if ok && mac { var _ := KeychainDelete(k); }
    }

    method SweepOne(k: Item)
      modifies this
      ensures V() == Sweep(old(V()), k)
    {
      if k in enc { var _ := RemoveFile(k); }
      if mac { var _ := KeychainDelete(k); }
    }

    /** The best-effort delete; the legacy alias goes with it. */
    method Delete(k: Item)
      modifies this
      ensures V() == DeleteBackup(old(V()), k)
    {
      SweepOne(k);
      SweepOne(PrevOf(k));
      if !k.owner.NoSlot? {
        SweepOne(k.(owner := NoSlot));
        SweepOne(PrevOf(k.(owner := NoSlot)));
      }
    }

    method DeleteStrict(k: Item) returns (ok: bool)
      modifies this
      ensures Filed(ok, V()) == DeleteBackupStrict(old(V()), k)
      ensures ok ==> k !in enc && (mac ==> k !in kc)
    {
      if DeleteBackupStrict(V(), k).ok { StrictDeleteEmptiesBoth(V(), k); }
      Delete(k);
      if k in enc {
        ok := RemoveFile(k);
        if !ok { return; }
      }
      if mac {
        var o := KeychainDelete(k);
        if !o.Works? { return false; }
      }
      var left := Read(k);
      ok := left == "";
    }
  }
}
