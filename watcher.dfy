/**
 * The watcher object of infra.py (`CompactZenWatcher`) without its window:
 * its rule tables, reloaded every polling cycle, and the table of connections
 * already reported, which one cycle of `monitor` updates in place.
 *
 * The operating system and the resolver are inputs: a connection snapshot
 * (`None` when `psutil.net_connections` raises), the rule files as
 * `csv.DictReader` would yield them, and the process-name and reverse-DNS
 * lookups (`None` when they raise).
 */
module Watcher {
  import opened Wrappers
  import opened Display
  import opened Rules
  import opened Classifier

  /** A remote address, `conn.raddr`. */
  datatype Addr = Addr(ip: string, port: int)

  /** One entry of `psutil.net_connections`: its status, remote address (if any) and owning process id (if known). */
  datatype Conn = Conn(status: string, raddr: Option<Addr>, pid: Option<int>)

  /** The key a connection is tracked under: `(raddr.ip, raddr.port, pid)`. */
  datatype ConnId = ConnId(ip: string, port: int, pid: Option<int>)

  /** The name lookups `monitor` makes for a new connection. */
  datatype Resolver = Resolver(processName: Option<int> -> Option<string>, hostName: string -> Option<string>)

  /** What is reported for one new connection. */
  datatype Event = Event(id: ConnId, processName: string, host: string, verdict: Verdict, sink: Sink, prefix: string)

  /** The entries `monitor` looks at: established, with a remote address. */
  predicate Tracked(c: Conn)
  {
    c.status == "ESTABLISHED" && c.raddr.Some?
  }

  function IdOf(c: Conn): ConnId
    requires c.raddr.Some?
  {
    ConnId(c.raddr.value.ip, c.raddr.value.port, c.pid)
  }

  /** The keys of the tracked entries of a snapshot (`current_found` at the end of the scan). */
  function LiveIds(conns: seq<Conn>): set<ConnId>
  {
    if conns == [] then {}
    else
      var last := conns[|conns| - 1];
      LiveIds(conns[..|conns| - 1]) + if Tracked(last) then {IdOf(last)} else {}
  }

  /** Some established entry with a remote address has key `id`. */
  predicate Occurs(conns: seq<Conn>, id: ConnId)
  {
    exists j :: 0 <= j < |conns| && Tracked(conns[j]) && IdOf(conns[j]) == id
  }

  lemma OccursCons(conns: seq<Conn>, id: ConnId)
    requires conns != []
    ensures Occurs(conns, id) <==> (Tracked(conns[0]) && IdOf(conns[0]) == id) || Occurs(conns[1..], id)
  {
    if Occurs(conns, id) {
      var j :| 0 <= j < |conns| && Tracked(conns[j]) && IdOf(conns[j]) == id;
      if j > 0 {
        assert conns[1..][j - 1] == conns[j];
      }
    }
    if Occurs(conns[1..], id) {
      var j :| 0 <= j < |conns[1..]| && Tracked(conns[1..][j]) && IdOf(conns[1..][j]) == id;
      assert conns[j + 1] == conns[1..][j];
    }
  }

  /** A key is live exactly when some established entry with a remote address has it. */
  lemma {:induction false} LiveIdsMembers(conns: seq<Conn>, id: ConnId)
    ensures id in LiveIds(conns) <==> Occurs(conns, id)
  {
    if conns != [] {
      var init := conns[..|conns| - 1];
      LiveIdsMembers(init, id);
      if Occurs(conns, id) {
        var j :| 0 <= j < |conns| && Tracked(conns[j]) && IdOf(conns[j]) == id;
        if j < |conns| - 1 {
          assert init[j] == conns[j];
        }
      }
      if Occurs(init, id) {
        var j :| 0 <= j < |init| && Tracked(init[j]) && IdOf(init[j]) == id;
        assert conns[j] == init[j];
      }
    }
  }

  /** The keys reported by a scan of `conns` when the keys in `seen` are already tracked, in snapshot order. */
  function NewIds(conns: seq<Conn>, seen: set<ConnId>): seq<ConnId>
  {
    if conns == [] then []
    else if Tracked(conns[0]) && IdOf(conns[0]) !in seen then [IdOf(conns[0])] + NewIds(conns[1..], seen + {IdOf(conns[0])})
    else NewIds(conns[1..], seen)
  }

  /** A scan reports exactly the keys of the snapshot that were not tracked before. */
  lemma {:induction false} NewIdsMembers(conns: seq<Conn>, seen: set<ConnId>, id: ConnId)
    ensures id in NewIds(conns, seen) <==> id !in seen && Occurs(conns, id)
  {
    if conns != [] {
      OccursCons(conns, id);
      var c := conns[0];
      if Tracked(c) && IdOf(c) !in seen {
        NewIdsMembers(conns[1..], seen + {IdOf(c)}, id);
      } else {
        NewIdsMembers(conns[1..], seen, id);
      }
    }
  }

  /** A key that occurs several times in one snapshot is reported once. */
  lemma {:induction false} NewIdsDistinct(conns: seq<Conn>, seen: set<ConnId>)
    ensures forall a, b :: 0 <= a < b < |NewIds(conns, seen)| ==> NewIds(conns, seen)[a] != NewIds(conns, seen)[b]
  {
    if conns != [] {
      var c := conns[0];
      if Tracked(c) && IdOf(c) !in seen {
        var x := IdOf(c);
        var rest := NewIds(conns[1..], seen + {x});
        NewIdsDistinct(conns[1..], seen + {x});
        forall b | 0 <= b < |rest| ensures rest[b] != x {
          NewIdsMembers(conns[1..], seen + {x}, rest[b]);
        }
        assert NewIds(conns, seen) == [x] + rest;
      } else {
        NewIdsDistinct(conns[1..], seen);
      }
    }
  }

  /**
   * Tracked keys after a successful cycle are those of the snapshot, so the
   * same snapshot again reports nothing.
   */
  lemma RepeatedSnapshotReportsNothing(conns: seq<Conn>)
    ensures NewIds(conns, LiveIds(conns)) == []
  {
    if NewIds(conns, LiveIds(conns)) != [] {
      var id := NewIds(conns, LiveIds(conns))[0];
      NewIdsMembers(conns, LiveIds(conns), id);
      LiveIdsMembers(conns, id);
    }
  }

  /** A key still present in the next snapshot is not reported again. */
  lemma NotReportedWhilePresent(previous: seq<Conn>, conns: seq<Conn>, id: ConnId)
    requires id in LiveIds(previous)
    ensures id !in NewIds(conns, LiveIds(previous))
  {
    NewIdsMembers(conns, LiveIds(previous), id);
  }

  /**
   * A key missing from one snapshot has been dropped, so when it shows up in
   * the next it is reported as a new connection.
   */
  lemma ReappearedIsReportedAgain(previous: seq<Conn>, conns: seq<Conn>, id: ConnId)
    requires id !in LiveIds(previous) && id in LiveIds(conns)
    ensures id in NewIds(conns, LiveIds(previous))
  {
    LiveIdsMembers(conns, id);
    NewIdsMembers(conns, LiveIds(previous), id);
  }

  function ProcessName(res: Resolver, pid: Option<int>): string
  {
    match res.processName(pid)
    case Some(name) => name
    case None => "Unknown"
  }

  function HostName(res: Resolver, ip: string): string
  {
    match res.hostName(ip)
    case Some(name) => name
    case None => "Unknown-Host"
  }

  /** The report for a new connection: names looked up, classified, routed, reason column chosen. */
  function Report(lower: string -> string, wide: char -> bool, res: Resolver, black: Config, white: Config, id: ConnId): Event
  {
    var name := ProcessName(res, id.pid);
    var host := HostName(res, id.ip);
    var v := Classify(lower, id.ip, id.port, host, black, white);
    Event(id, name, host, v, Route(v, id.port), Prefix(wide, v, id.port))
  }

  /**
   * What a report says, in terms of the lookups and the rule tables alone:
   * the looked-up names or their sentinels, the flags and sink each kind of
   * match leads to, and the `??WEB??` column exactly for unmatched port-443
   * traffic.
   */
  lemma ReportMeaning(lower: string -> string, wide: char -> bool, res: Resolver, black: Config, white: Config, id: ConnId)
    ensures var ev := Report(lower, wide, res, black, white, id);
            var b := BlackHit(lower, id.ip, id.port, ev.host, black);
            var w := WhiteHit(lower, id.ip, id.port, ev.host, white);
            ev.id == id &&
            ev.host == (if res.hostName(id.ip).Some? then res.hostName(id.ip).value else "Unknown-Host") &&
            ev.processName == (if res.processName(id.pid).Some? then res.processName(id.pid).value else "Unknown") &&
            (ev.verdict.isBlack <==> b) && (ev.verdict.isWhite <==> !b && w) &&
            (ev.sink == AlertBlacklist <==> b) &&
            (ev.sink == Normal(false) <==> !b && w) &&
            (ev.sink == Normal(true) <==> !b && !w && id.port == 443) &&
            (ev.sink == AlertUnknown <==> !b && !w && id.port != 443) &&
            (ev.prefix == WebPrefix <==> !b && !w && id.port == 443)
  {
    var host := HostName(res, id.ip);
    var v := Classify(lower, id.ip, id.port, host, black, white);
    RouteOfClassify(lower, id.ip, id.port, host, black, white);
    WebPrefixIffUnregistered(wide, v, id.port);
  }

  function Ids(events: seq<Event>): (ids: seq<ConnId>)
    ensures |ids| == |events| && forall i :: 0 <= i < |events| ==> ids[i] == events[i].id
  {
    if events == [] then [] else [events[0].id] + Ids(events[1..])
  }

  class Watcher {
    const whitePath: string
    const blackPath: string
    /** `str.lower`. */
    const lower: string -> string
    /** East Asian Width F, W or A. */
    const wide: char -> bool
    var whiteConfig: Config
    var blackConfig: Config
    /** `active_connections`: every tracked key maps to true. */
    var active: map<ConnId, bool>

    ghost predicate Valid()
      reads this
    {
      forall id :: id in active ==> active[id]
    }

    /** `__init__` without the window: loads both rule files and tracks nothing. */
    constructor (whitePath: string, blackPath: string, lower: string -> string, wide: char -> bool,
                 files: string -> Option<seq<Row>>)
      ensures Valid() && active == map[]
      ensures this.whitePath == whitePath && this.blackPath == blackPath
      ensures this.lower == lower && this.wide == wide
      ensures whiteConfig == Load(lower, files(whitePath)) && blackConfig == Load(lower, files(blackPath))
    {
      var white := ReadCsv(lower, files(whitePath));
      var black := ReadCsv(lower, files(blackPath));
      this.whitePath, this.blackPath := whitePath, blackPath;
      this.lower, this.wide := lower, wide;
      whiteConfig, blackConfig := white, black;
      active := map[];
    }

    /** `load_configs`: rereads both rule files. */
    method LoadConfigs(files: string -> Option<seq<Row>>)
      modifies this`whiteConfig, this`blackConfig
      ensures whiteConfig == Load(lower, files(whitePath)) && blackConfig == Load(lower, files(blackPath))
    {
      whiteConfig := ReadCsv(lower, files(whitePath));
      blackConfig := ReadCsv(lower, files(blackPath));
    }

    /** The lookups, decision and formatting for one new connection, with the current rule tables. */
    method Announce(res: Resolver, id: ConnId) returns (ev: Event)
      ensures ev == Report(lower, wide, res, blackConfig, whiteConfig, id)
    {
      var name := ProcessName(res, id.pid);
      var host := HostName(res, id.ip);
      var v := Classify(lower, id.ip, id.port, host, blackConfig, whiteConfig);
      var prefix;
      if !v.isBlack && !v.isWhite && id.port == 443 {
        prefix := WebPrefix;
      } else {
        prefix := ZenSliceAndFill(wide, "(" + ReasonText(v.reason) + ")", 12);
      }
      ev := Event(id, name, host, v, Route(v, id.port), prefix);
    }

    /**
     * One pass of the `monitor` loop: reload the rules, take the snapshot,
     * report each tracked connection not yet in `active` and add it, then
     * drop from `active` every key the snapshot no longer has. A failed
     * snapshot leaves `active` alone and reports nothing.
     */
    method Cycle(files: string -> Option<seq<Row>>, snapshot: Option<seq<Conn>>, res: Resolver)
      returns (events: seq<Event>)
      requires Valid()
      modifies this
      ensures Valid()
      ensures whiteConfig == Load(lower, files(whitePath)) && blackConfig == Load(lower, files(blackPath))
      ensures snapshot.None? ==> events == [] && active == old(active)
      ensures snapshot.Some? ==> active.Keys == LiveIds(snapshot.value)
      ensures snapshot.Some? ==> Ids(events) == NewIds(snapshot.value, old(active).Keys)
      ensures forall e :: e in events ==> e == Report(lower, wide, res, blackConfig, whiteConfig, e.id)
    {
      LoadConfigs(files);
      events := [];
      if snapshot.None? {
        return;
      }
      var currentFound;
      events, currentFound := Scan(snapshot.value, res);
      Expire(currentFound);
    }

    /**
     * The scan of a snapshot: every tracked connection's key goes into
     * `currentFound`; a key not yet in `active` is reported and added.
     */
    method Scan(conns: seq<Conn>, res: Resolver) returns (events: seq<Event>, currentFound: set<ConnId>)
      requires Valid()
      modifies this`active
      ensures Valid()
      ensures currentFound == LiveIds(conns)
      ensures active.Keys == old(active).Keys + currentFound
      ensures Ids(events) == NewIds(conns, old(active).Keys)
      ensures forall e :: e in events ==> e == Report(lower, wide, res, blackConfig, whiteConfig, e.id)
    {
      events := [];
      currentFound := {};
      var i := 0;
      while i < |conns|
        invariant 0 <= i <= |conns|
        invariant Valid()
        invariant currentFound == LiveIds(conns[..i])
        invariant active.Keys == old(active).Keys + currentFound
        invariant Ids(events) + NewIds(conns[i..], active.Keys) == NewIds(conns, old(active).Keys)
        invariant forall e :: e in events ==> e == Report(lower, wide, res, blackConfig, whiteConfig, e.id)
      {
        var c := conns[i];
        ghost var seen := active.Keys;
        LiveIdsStep(conns, i);
        ScanStep(conns, i, Ids(events), seen, NewIds(conns, old(active).Keys));
        if c.status == "ESTABLISHED" && c.raddr.Some? {
          var cid := ConnId(c.raddr.value.ip, c.raddr.value.port, c.pid);
          assert cid == IdOf(c);
          currentFound := currentFound + {cid};
          if cid !in active {
            var ev := Announce(res, cid);
            IdsAppend(events, ev);
            events := events + [ev];
            active := active[cid := true];
            assert active.Keys == seen + {cid};
          }
        }
        i := i + 1;
      }
      assert conns[..i] == conns;
      assert conns[i..] == [];
    }

    /** The clean-up after a scan: every key the snapshot no longer has is deleted from `active`. */
    method Expire(currentFound: set<ConnId>)
      requires Valid() && currentFound <= active.Keys
      modifies this`active
      ensures Valid()
      ensures active.Keys == currentFound
    {
      var toRemove := active.Keys - currentFound;
      while toRemove != {}
        invariant Valid()
        invariant toRemove !! currentFound
        invariant active.Keys == currentFound + toRemove
        decreases toRemove
      {
        var cid :| cid in toRemove;
        active := active - {cid};
        toRemove := toRemove - {cid};
      }
    }
  }

  lemma LiveIdsStep(conns: seq<Conn>, i: nat)
    requires i < |conns|
    ensures LiveIds(conns[..i + 1]) ==
              LiveIds(conns[..i]) + if Tracked(conns[i]) then {IdOf(conns[i])} else {}
  {
    assert conns[..i + 1][..i] == conns[..i];
  }

  /** Two cycles over the same snapshot: the second reports nothing, and the same keys stay tracked. */
  method CycleTwice(w: Watcher, files: string -> Option<seq<Row>>, conns: seq<Conn>, res: Resolver)
    returns (first: seq<Event>, second: seq<Event>)
    requires w.Valid()
    modifies w
    ensures w.Valid() && w.active.Keys == LiveIds(conns)
    ensures Ids(first) == NewIds(conns, old(w.active).Keys)
    ensures second == []
  {
    first := w.Cycle(files, Some(conns), res);
    second := w.Cycle(files, Some(conns), res);
    RepeatedSnapshotReportsNothing(conns);
  }

  /** One step of the scan keeps "reported so far, then what the rest of the snapshot reports" equal to the whole. */
  lemma ScanStep(conns: seq<Conn>, i: nat, done: seq<ConnId>, seen: set<ConnId>, all: seq<ConnId>)
    requires i < |conns| && done + NewIds(conns[i..], seen) == all
    ensures Tracked(conns[i]) && IdOf(conns[i]) !in seen ==>
              (done + [IdOf(conns[i])]) + NewIds(conns[i + 1..], seen + {IdOf(conns[i])}) == all
    ensures !(Tracked(conns[i]) && IdOf(conns[i]) !in seen) ==>
              done + NewIds(conns[i + 1..], seen) == all
  {
    assert conns[i..][1..] == conns[i + 1..];
    if Tracked(conns[i]) && IdOf(conns[i]) !in seen {
      var id := IdOf(conns[i]);
      assert NewIds(conns[i..], seen) == [id] + NewIds(conns[i + 1..], seen + {id});
      assert done + ([id] + NewIds(conns[i + 1..], seen + {id})) == (done + [id]) + NewIds(conns[i + 1..], seen + {id});
    }
  }

  lemma {:induction false} IdsAppend(events: seq<Event>, ev: Event)
    ensures Ids(events + [ev]) == Ids(events) + [ev.id]
  {
    if events != [] {
      assert (events + [ev])[1..] == events[1..] + [ev];
      IdsAppend(events[1..], ev);
    }
  }
}
