/** The config watcher as an object that hands out copies of its config. */
module Watching {
  import opened Common
  import opened WatchSpec

  class Config {
    var addr: string
    var alpn: array?<string>
    var enableDatagrams: bool
    var metricsAddr: string
    var tls: TLS

    constructor (addr: string, alpn: array?<string>, enableDatagrams: bool, metricsAddr: string, tls: TLS)
      ensures this.alpn == alpn && this.addr == addr && this.enableDatagrams == enableDatagrams
      ensures this.metricsAddr == metricsAddr && this.tls == tls
    {
      this.addr, this.alpn, this.enableDatagrams := addr, alpn, enableDatagrams;
      this.metricsAddr, this.tls := metricsAddr, tls;
    }

    ghost function Footprint(): set<object>
      reads this
    {
      if alpn == null then {this} else {this, alpn}
    }

    ghost function Value(): ConfigValue
      reads this, alpn
    {
      ConfigValue(addr, if alpn == null then None else Some(alpn[..]), enableDatagrams, metricsAddr, tls)
    }

    /** A deep copy that shares nothing with the original; an empty ALPN list becomes a nil one. */
    method Clone() returns (c: Config)
      ensures fresh(c.Footprint())
      ensures c.Value() == if alpn != null && alpn.Length == 0 then Value().(alpn := None) else Value()
    {
      var list: array?<string> := null;
      if alpn != null && alpn.Length > 0 {
        var copy := new string[alpn.Length](_ => "");
        for i := 0 to alpn.Length
          invariant copy[..i] == alpn[..i]
        {
          copy[i] := alpn[i];
        }
        assert copy[..] == alpn[..];
        list := copy;
      }
      c := new Config(addr, list, enableDatagrams, metricsAddr, tls);
    }

    /** `present` answers the file checks: an address and a protocol are required, and every
        certificate file the config names must exist. */
    method Validate(present: string -> bool) returns (ok: bool)
      ensures ok <==> ValidValue(Value(), present)
    {
      if addr == "" {
        return false;
      }
      if alpn == null || alpn.Length == 0 {
        return false;
      }
      if HasServerCert(tls) {
        if !present(tls.certFile) {
          return false;
        }
        if !present(tls.keyFile) {
          return false;
        }
      }
      if tls.caFile != "" {
        if !present(tls.caFile) {
          return false;
        }
      }
      return true;
    }
  }

  predicate HasServerCert(tls: TLS) {
    tls.certFile != "" && tls.keyFile != ""
  }

  // The certificate files that have to be there; a certificate without its key is not looked at.
  function NamedFiles(tls: TLS): set<string> {
    (if HasServerCert(tls) then {tls.certFile, tls.keyFile} else {}) + (if tls.caFile != "" then {tls.caFile} else {})
  }

  predicate WellFormed(v: ConfigValue) {
    v.addr != "" && v.alpn.Some? && v.alpn.value != []
  }

  predicate ValidValue(v: ConfigValue, present: string -> bool) {
    WellFormed(v) && forall f :: f in NamedFiles(v.tls) ==> present(f)
  }

  class Watcher {
    var current: Config
    var modTime: int
    var stopped: bool
    ghost var owned: ConfigValue          // what current must stay equal to between polls
    ghost var times: seq<int>             // every modification time recorded
    ghost var delivered: seq<Content>     // what onChange has been given
    ghost var errors: nat                 // reported errors

    ghost predicate Valid()
      reads this, current, current.alpn
    {
      owned == current.Value() && WellFormed(owned)
    }

    // The watcher beside the file it watches.
    ghost function View(file: File): Watch
      reads this
    {
      Watch(file, modTime, Content(owned, true, true), Idle, times, delivered)
    }

    constructor (cfg: Config, modTime: int)
      requires WellFormed(cfg.Value())
      ensures Valid() && current == cfg && !stopped && errors == 0
      ensures this.modTime == modTime && times == [modTime]
      ensures owned == cfg.Value() && delivered == [Content(cfg.Value(), true, true)]
    {
      current, this.modTime, stopped := cfg, modTime, false;
      owned, times, delivered, errors := cfg.Value(), [modTime], [Content(cfg.Value(), true, true)], 0;
    }

    /** One poll is the three steps of the polling goroutine. `at` is the file when its modification
        time is read and `later` the file when it is loaded; a failing stat or load gives None or
        null. onChange gets a copy that shares nothing with the watcher's config. */
    method Poll(stat: Option<int>, loaded: Config?, present: string -> bool, ghost at: File, ghost later: File)
      returns (given: Config?)
      requires Valid()
      requires stat.Some? ==> stat.value == at.modTime
      requires loaded != null ==> later.content == Content(loaded.Value(), true, ValidValue(loaded.Value(), present))
      modifies this
      ensures Valid() && stopped == old(stopped)
      ensures View(later) == Run(old(View(at)), PollSteps(stat.Some?, later, loaded != null))
      ensures given != null <==> delivered != old(delivered)
      ensures given != null ==> loaded != null && given.Value() == old(loaded.Value()) && fresh(given.Footprint())
      ensures errors == old(errors) <==> given != null || (stat.Some? && stat.value <= old(modTime))
    {
      PollTakesBothOrNeither(View(at), stat.Some?, later, loaded != null);
      if stat.None? {
        errors := errors + 1;
        return null;
      }
      if stat.value <= modTime {
        return null;
      }
      if loaded == null {
        errors := errors + 1;
        return null;
      }
      var ok := loaded.Validate(present);
      if !ok {
        errors := errors + 1;
        return null;
      }
      modTime, current := stat.value, loaded;
      owned, times := loaded.Value(), times + [stat.value];
      delivered := delivered + [Content(owned, true, true)];
      given := loaded.Clone();
    }

    method Current() returns (c: Config)
      requires Valid()
      ensures fresh(c.Footprint()) && c.Value() == current.Value()
    {
      c := current.Clone();
    }

    method Stop()
      modifies this`stopped
      ensures stopped
    {
      stopped := true;
    }
  }

  /** Starts a watcher exactly when there is a handler, the file loads and validates and its
      modification time can then be read; it begins as the value-level watcher does. */
  method WatchFile(hasHandler: bool, loaded: Config?, present: string -> bool, stat: Option<int>, ghost statted: File)
    returns (w: Watcher?, given: Config?)
    requires stat.Some? ==> stat.value == statted.modTime
    ensures w != null <==> hasHandler && loaded != null && ValidValue(loaded.Value(), present) && stat.Some?
    ensures w != null ==> fresh(w) && w.Valid() && w.current == loaded
    ensures w != null ==> w.View(statted) == Start(File(0, Content(loaded.Value(), true, true)), statted)
    ensures w != null ==> given != null && given.Value() == loaded.Value() && fresh(given.Footprint())
  {
    w, given := null, null;
    if !hasHandler || loaded == null {
      return;
    }
    var ok := loaded.Validate(present);
    if !ok || stat.None? {
      return;
    }
    w := new Watcher(loaded, stat.value);
    given := loaded.Clone();
  }

  /** Whatever a caller writes into a config that Current has given out, field by field or into the
      list it shares with nobody, the watcher's own stays as it was and the next Current returns it
      unchanged. */
  method ChangingACopy(w: Watcher, written: ConfigValue, protocols: nat -> string, list: array?<string>)
    returns (again: Config)
    requires w.Valid()
    ensures w.Valid() && w.current == old(w.current) && w.current.Value() == old(w.current.Value())
    ensures again.Value() == old(w.current.Value())
  {
    var c := w.Current();
    if c.alpn != null {
      var own := c.alpn;
      for i := 0 to own.Length
        invariant fresh(own) && fresh(c) && w.Valid()
        invariant w.current == old(w.current) && w.current.Value() == old(w.current.Value())
      {
        own[i] := protocols(i);
      }
    }
    c.addr, c.enableDatagrams, c.metricsAddr, c.tls := written.addr, written.enableDatagrams, written.metricsAddr, written.tls;
    c.alpn := list;
    again := w.Current();
  }
}
