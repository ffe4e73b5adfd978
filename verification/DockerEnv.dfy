/** Generating a docker-compose setup from the servers of a configuration, one host at a time. */
module DockerEnv {
  import opened Collections

  datatype Server = Server(index: nat, name: string, address: string, port: nat)

  predicate IsMaster(s: Server) { s.index == 0 }

  // ---- Reading the configuration ----

  datatype Section = Section(name: string, kind: Option<string>, address: Option<string>, port: Option<nat>)

  predicate IsServer(sect: Section) { sect.kind == Some("server") }

  function ServerSections(sects: seq<Section>): seq<Section> {
    if sects == [] then []
    else ServerSections(sects[..|sects| - 1]) + if IsServer(sects[|sects| - 1]) then [sects[|sects| - 1]] else []
  }

  lemma {:induction false} ServerSectionsIff(sects: seq<Section>, sect: Section)
    ensures sect in ServerSections(sects) <==> sect in sects && sect.kind == Some("server")
  {
    if sects != [] {
      var n := |sects| - 1;
      ServerSectionsIff(sects[..n], sect);
      assert sects == sects[..n] + [sects[n]];
    }
  }

  /** Server number `i` as section `sect` describes it. */
  predicate Describes(sect: Section, s: Server, i: nat) {
    && s.index == i && s.name == sect.name && sect.address == Some(s.address)
    && s.port == match sect.port case Some(p) => p case None => 3306
  }

  /** The servers in the order of their sections, numbered from 0; a server without an address is an error. */
  method ReadServers(sects: seq<Section>) returns (r: Option<seq<Server>>)
    ensures r.Some? <==> forall i :: 0 <= i < |sects| && sects[i].kind == Some("server") ==> sects[i].address.Some?
    ensures r.Some? ==>
              && |r.value| == |ServerSections(sects)|
              && forall i :: 0 <= i < |r.value| ==> Describes(ServerSections(sects)[i], r.value[i], i)
  {
    var servers: seq<Server> := [];
    for n := 0 to |sects|
      invariant forall i :: 0 <= i < n && IsServer(sects[i]) ==> sects[i].address.Some?
      invariant |servers| == |ServerSections(sects[..n])|
      invariant forall i :: 0 <= i < |servers| ==> Describes(ServerSections(sects[..n])[i], servers[i], i)
    {
      assert sects[..n + 1][..n] == sects[..n];
      var sect := sects[n];
      if IsServer(sect) {
        if sect.address.None? {
          return None;
        }
        var port := if sect.port.Some? then sect.port.value else 3306;
        servers := servers + [Server(|servers|, sect.name, sect.address.value, port)];
      }
    }
    assert sects[..|sects|] == sects;
    r := Some(servers);
  }

  // ---- Ordering by address ----

  predicate Le(a: string, b: string) {
    a == "" || (b != "" && (a[0] < b[0] || (a[0] == b[0] && Le(a[1..], b[1..]))))
  }

  lemma {:induction false} LeTotal(a: string, b: string)
    ensures Le(a, b) || Le(b, a)
    ensures Le(a, b) && Le(b, a) ==> a == b
    decreases |a|
  {
    if a != "" && b != "" && a[0] == b[0] {
      LeTotal(a[1..], b[1..]);
      if a[1..] == b[1..] {
        assert a == [a[0]] + a[1..] && b == [b[0]] + b[1..];
      }
    }
  }

  lemma {:induction false} LeTransitive(a: string, b: string, c: string)
    requires Le(a, b) && Le(b, c)
    ensures Le(a, c)
    decreases |a|
  {
    if a != "" && a[0] == b[0] == c[0] {
      LeTransitive(a[1..], b[1..], c[1..]);
    }
  }

  /** The strings first differ at `i`, where `a` has the smaller character. */
  ghost predicate SmallerAt(a: string, b: string, i: nat) {
    i < |a| && i < |b| && a[..i] == b[..i] && a[i] < b[i]
  }

  lemma SmallerAtCons(a: string, b: string, i: nat)
    requires a != "" && b != "" && a[0] == b[0]
    ensures SmallerAt(a, b, i + 1) <==> SmallerAt(a[1..], b[1..], i)
  {
    var x, y := a[1..], b[1..];
    if i < |x| && i < |y| {
      assert a[..i + 1] == [a[0]] + x[..i] && b[..i + 1] == [b[0]] + y[..i];
      assert a[..i + 1][1..] == x[..i] && b[..i + 1][1..] == y[..i];
    }
  }

  /** The order of the addresses is that of their first difference; a prefix comes first. */
  lemma {:induction false} LeIsLexicographic(a: string, b: string)
    ensures Le(a, b) <==> a <= b || exists i: nat :: SmallerAt(a, b, i)
    decreases |a|
  {
    if a != "" && b != "" {
      if a[0] == b[0] {
        LeIsLexicographic(a[1..], b[1..]);
        PrefixCons(a, b);
        if i: nat :| SmallerAt(a[1..], b[1..], i) {
          SmallerAtCons(a, b, i);
        }
        if i: nat :| SmallerAt(a, b, i) {
          assert i > 0;
          SmallerAtCons(a, b, i - 1);
        }
      } else {
        SmallerAtStart(a, b);
      }
    }
  }

  lemma PrefixCons(a: string, b: string)
    requires a != "" && b != "" && a[0] == b[0]
    ensures a <= b <==> a[1..] <= b[1..]
  {
    if a[1..] <= b[1..] {
      assert forall i :: 0 < i < |a| ==> a[i] == a[1..][i - 1] == b[1..][i - 1] == b[i];
    }
  }

  lemma SmallerAtStart(a: string, b: string)
    requires a != "" && b != "" && a[0] != b[0]
    ensures !(a <= b)
    ensures (exists i: nat :: SmallerAt(a, b, i)) <==> a[0] < b[0]
  {
    if a[0] < b[0] {
      assert SmallerAt(a, b, 0);
    }
    if i: nat :| SmallerAt(a, b, i) {
      assert i == 0 || a[..i][0] == b[..i][0];
    }
  }

  /** Insert behind everything that is not greater. */
  function Insert(ys: seq<Server>, x: Server): seq<Server> {
    if ys == [] || Le(ys[|ys| - 1].address, x.address) then ys + [x]
    else Insert(ys[..|ys| - 1], x) + [ys[|ys| - 1]]
  }

  /** Sorted by address, servers with the same address in the order they came. */
  function SortByAddress(xs: seq<Server>): seq<Server> {
    if xs == [] then [] else Insert(SortByAddress(xs[..|xs| - 1]), xs[|xs| - 1])
  }

  ghost predicate Ordered(xs: seq<Server>) {
    forall i, j :: 0 <= i < j < |xs| ==> Le(xs[i].address, xs[j].address)
  }

  /** The servers at address `a`, in order. */
  function At(xs: seq<Server>, a: string): seq<Server> {
    if xs == [] then []
    else At(xs[..|xs| - 1], a) + if xs[|xs| - 1].address == a then [xs[|xs| - 1]] else []
  }

  lemma AtSnoc(xs: seq<Server>, x: Server, a: string)
    ensures At(xs + [x], a) == At(xs, a) + if x.address == a then [x] else []
  {
    assert (xs + [x])[..|xs|] == xs;
  }

  lemma {:induction false} InsertKeepsGroups(ys: seq<Server>, x: Server, a: string)
    ensures At(Insert(ys, x), a) == At(ys, a) + if x.address == a then [x] else []
  {
    if ys == [] || Le(ys[|ys| - 1].address, x.address) {
      AtSnoc(ys, x, a);
    } else {
      var n := |ys| - 1;
      InsertKeepsGroups(ys[..n], x, a);
      AtSnoc(Insert(ys[..n], x), ys[n], a);
      NotLeDiffers(ys[n].address, x.address);
      SwapLast(At(ys[..n], a), x, ys[n], a);
    }
  }

  lemma NotLeDiffers(a: string, b: string)
    requires !Le(a, b)
    ensures a != b
  {
    LeTotal(a, a);
  }

  /** Of two servers at different addresses at most one is at `a`. */
  lemma SwapLast(before: seq<Server>, x: Server, y: Server, a: string)
    requires x.address != y.address
    ensures (before + if x.address == a then [x] else []) + (if y.address == a then [y] else [])
         == (before + if y.address == a then [y] else []) + (if x.address == a then [x] else [])
  {
  }

  /** Sorting moves no server within its address. */
  lemma {:induction false} SortKeepsGroups(xs: seq<Server>, a: string)
    ensures At(SortByAddress(xs), a) == At(xs, a)
  {
    if xs != [] {
      var n := |xs| - 1;
      SortKeepsGroups(xs[..n], a);
      InsertKeepsGroups(SortByAddress(xs[..n]), xs[n], a);
    }
  }

  lemma {:induction false} InsertBounds(ys: seq<Server>, x: Server, a: string)
    requires Le(x.address, a) && forall i :: 0 <= i < |ys| ==> Le(ys[i].address, a)
    ensures forall i :: 0 <= i < |Insert(ys, x)| ==> Le(Insert(ys, x)[i].address, a)
  {
    if ys != [] && !Le(ys[|ys| - 1].address, x.address) {
      InsertBounds(ys[..|ys| - 1], x, a);
    }
  }

  lemma {:induction false} InsertOrders(ys: seq<Server>, x: Server)
    requires Ordered(ys)
    ensures Ordered(Insert(ys, x))
  {
    if ys != [] {
      var n := |ys| - 1;
      if Le(ys[n].address, x.address) {
        forall i | 0 <= i < n ensures Le(ys[i].address, x.address) {
          LeTransitive(ys[i].address, ys[n].address, x.address);
        }
      } else {
        InsertOrders(ys[..n], x);
        LeTotal(x.address, ys[n].address);
        InsertBounds(ys[..n], x, ys[n].address);
      }
    }
  }

  lemma {:induction false} SortOrders(xs: seq<Server>)
    ensures Ordered(SortByAddress(xs)) && |SortByAddress(xs)| == |xs|
  {
    if xs != [] {
      SortOrders(xs[..|xs| - 1]);
      InsertOrders(SortByAddress(xs[..|xs| - 1]), xs[|xs| - 1]);
      InsertLength(SortByAddress(xs[..|xs| - 1]), xs[|xs| - 1]);
    }
  }

  lemma {:induction false} InsertLength(ys: seq<Server>, x: Server)
    ensures |Insert(ys, x)| == |ys| + 1
  {
    if ys != [] && !Le(ys[|ys| - 1].address, x.address) {
      InsertLength(ys[..|ys| - 1], x);
    }
  }

  // ---- Files ----

  datatype File = DockerCompose | MaxScaleCnf | SystemTestCnf | MasterSql | SlaveSql

  /** A file of the output directory, below the directory of a host if it has an address. */
  datatype Path = Path(file: File, ip: Option<string>)

  datatype Entry = Entry(name: string, masterVolume: bool, serverId: nat, port: nat)

  function EntryOf(s: Server): Entry {
    Entry(s.name, IsMaster(s), 1000 + s.index, s.port)
  }

  function Entries(xs: seq<Server>): seq<Entry> {
    seq(|xs|, i requires 0 <= i < |xs| => EntryOf(xs[i]))
  }

  datatype HostType = NoType | Master | Slave | Both

  /** The join of the roles of some servers. */
  ghost function RoleOf(xs: seq<Server>): HostType {
    var master, slave := HasMaster(xs), HasSlave(xs);
    if master && slave then Both else if master then Master else if slave then Slave else NoType
  }

  ghost predicate HasMaster(xs: seq<Server>) { exists i :: 0 <= i < |xs| && IsMaster(xs[i]) }
  ghost predicate HasSlave(xs: seq<Server>) { exists i :: 0 <= i < |xs| && !IsMaster(xs[i]) }

  lemma RoleSnoc(xs: seq<Server>, x: Server)
    ensures HasMaster(xs + [x]) <==> HasMaster(xs) || IsMaster(x)
    ensures HasSlave(xs + [x]) <==> HasSlave(xs) || !IsMaster(x)
  {
    var ys := xs + [x];
    assert ys[|xs|] == x;
    if i :| 0 <= i < |xs| && IsMaster(xs[i]) {
      assert IsMaster(ys[i]);
    }
    if i :| 0 <= i < |xs| && !IsMaster(xs[i]) {
      assert !IsMaster(ys[i]);
    }
  }

  /** The files that hosts with these servers need. */
  ghost predicate Needed(xs: seq<Server>, p: Path) {
    p.ip.Some? &&
    match p.file
    case DockerCompose => At(xs, p.ip.value) != []
    case MasterSql => HasMaster(At(xs, p.ip.value))
    case SlaveSql => HasSlave(At(xs, p.ip.value))
    case _ => false
  }

  datatype Outcome = Done | NoServers | FileExists(path: Path)

  /** The output directory: what each compose file lists; other files are only created. */
  class OutDir {
    var files: map<Path, seq<Entry>>

    constructor ()
      ensures files == map[]
    {
      files := map[];
    }

    /** Create the file; it is an error if it is there already. */
    method OpenFile(p: Path) returns (out: Outcome)
      modifies this
      ensures p in old(files) ==> out == FileExists(p) && files == old(files)
      ensures p !in old(files) ==> out == Done && files == old(files)[p := []]
    {
      if p in files {
        return FileExists(p);
      }
      files := files[p := []];
      out := Done;
    }

    method Print(p: Path, e: Entry)
      requires p in files
      modifies this
      ensures files == old(files)[p := old(files)[p] + [e]]
    {
      files := files[p := files[p] + [e]];
    }

    /** Start the compose file of an address that has not been seen. */
    method StartDockerFile(ip: string, ghost base: map<Path, seq<Entry>>, ghost seen: seq<Server>)
      returns (out: Outcome)
      requires Settled(base, files, seen) && At(seen, ip) == []
      modifies this
      ensures out == Done ==> Progress(base, files, seen, ip) && RoleOf(At(seen, ip)) == NoType
      ensures out != Done ==> out == FileExists(Path(DockerCompose, Some(ip))) && out.path in base
    {
      ghost var before := files;
      out := OpenFile(Path(DockerCompose, Some(ip)));
      if out == Done {
        Started(base, before, files, seen, ip);
      }
    }

    /** Write the SQL files that the roles on the host call for. */
    method FinishDockerFile(ip: string, hostType: HostType, ghost base: map<Path, seq<Entry>>, ghost seen: seq<Server>)
      returns (out: Outcome)
      requires Progress(base, files, seen, ip) && At(seen, ip) != [] && hostType == RoleOf(At(seen, ip))
      modifies this
      ensures out == Done ==> Settled(base, files, seen)
      ensures out != Done ==> out.FileExists? && out.path in base && Needed(seen, out.path)
    {
      ghost var before := files;
      out := Done;
      if hostType == Master || hostType == Both {
        out := OpenFile(Path(MasterSql, Some(ip)));
        if out != Done {
          return;
        }
      }
      if hostType == Slave || hostType == Both {
        out := OpenFile(Path(SlaveSql, Some(ip)));
        if out != Done {
          return;
        }
      }
      Finished(base, before, files, seen, ip);
    }

    /** List a server in the compose file of its address and join its role to the host's. */
    method AddServer(server: Server, hostType: HostType, ghost base: map<Path, seq<Entry>>, ghost seen: seq<Server>)
      returns (joined: HostType)
      requires Progress(base, files, seen, server.address) && hostType == RoleOf(At(seen, server.address))
      modifies this
      ensures Progress(base, files, seen + [server], server.address)
      ensures joined == RoleOf(At(seen + [server], server.address))
    {
      if IsMaster(server) {
        joined := if hostType == NoType || hostType == Master then Master else Both;
      } else {
        joined := if hostType == NoType || hostType == Slave then Slave else Both;
      }
      ghost var before := files;
      assert Created(seen, server.address, Path(DockerCompose, Some(server.address)));
      Print(Path(DockerCompose, Some(server.address)), EntryOf(server));
      Printed(base, before, files, seen, server.address, server);
    }

    /** Finish the files of one address and start those of the next server's. */
    method SwitchHost(ip: string, hostType: HostType, next: string,
                      ghost base: map<Path, seq<Entry>>, ghost sorted: seq<Server>, ghost n: nat) returns (out: Outcome)
      requires Ordered(sorted) && 0 < n < |sorted| && ip == sorted[n - 1].address != next == sorted[n].address
      requires Progress(base, files, sorted[..n], ip) && hostType == RoleOf(At(sorted[..n], ip))
      modifies this
      ensures out == Done ==> Progress(base, files, sorted[..n], next) && RoleOf(At(sorted[..n], next)) == NoType
      ensures out != Done ==> out.FileExists? && out.path in base && Needed(sorted, out.path)
    {
      AtMember(sorted[..n], n - 1);
      out := FinishDockerFile(ip, hostType, base, sorted[..n]);
      if out != Done {
        NeededInAll(sorted, n, out.path);
        return;
      }
      NewAddress(sorted, n);
      AtMember(sorted, n);
      out := StartDockerFile(next, base, sorted[..n]);
    }

    /** Write the next server, at the host of the one before it or at a new one. */
    method WriteServer(ip: string, hostType: HostType, ghost base: map<Path, seq<Entry>>, ghost sorted: seq<Server>,
                       ghost n: nat, server: Server) returns (out: Outcome, joined: HostType)
      requires Ordered(sorted) && n < |sorted| && server == sorted[n]
      requires Writing(base, files, sorted, n, ip, hostType)
      modifies this
      ensures out == Done ==> Writing(base, files, sorted, n + 1, server.address, joined)
      ensures out != Done ==> out.FileExists? && out.path in base && Needed(sorted, out.path)
    {
      out, joined := Done, hostType;
      if ip != server.address {
        out := SwitchHost(ip, hostType, server.address, base, sorted, n);
        if out != Done {
          return;
        }
        joined := NoType;
      }
      joined := AddServer(server, joined, base, sorted[..n]);
      assert sorted[..n + 1] == sorted[..n] + [server];
    }

    /** Write one compose file per run of equal addresses. */
    method WriteHosts(sorted: seq<Server>) returns (out: Outcome)
      requires sorted != [] && Ordered(sorted)
      modifies this
      ensures out == Done ==> Settled(old(files), files, sorted)
      ensures out != Done ==> out.FileExists? && out.path in old(files) && Needed(sorted, out.path)
    {
      ghost var base := files;
      var currentIp, hostType := sorted[0].address, NoType;
      NothingSeen(base);
      AtMember(sorted, 0);
      out := StartDockerFile(currentIp, base, []);
      if out != Done {
        return;
      }
      for n := 0 to |sorted|
        invariant Writing(base, files, sorted, n, currentIp, hostType)
      {
        out, hostType := WriteServer(currentIp, hostType, base, sorted, n, sorted[n]);
        if out != Done {
          return;
        }
        currentIp := sorted[n].address;
      }
      assert sorted[..|sorted|] == sorted;
      AtMember(sorted, |sorted| - 1);
      out := FinishDockerFile(currentIp, hostType, base, sorted);
    }

    /** Sort the servers by address and write their files. The outcome is an error exactly when there is no server or
        a needed file was there before; otherwise the directory has gained exactly the files that the servers, grouped
        by address, need. */
    method GenerateFiles(servers: seq<Server>) returns (out: Outcome)
      modifies this
      ensures out == NoServers <==> servers == []
      ensures servers != [] ==> (out == Done <==> forall p :: Needed(servers, p) ==> p !in old(files))
      ensures out == Done ==> Settled(old(files), files, servers)
      ensures out == Done ==> forall j :: 0 <= j < |servers| ==> Listed(files, servers[j])
    {
      if servers == [] {
        return NoServers;
      }
      var sorted := SortByAddress(servers);
      SortOrders(servers);
      SortKeepsAll(servers);
      out := WriteHosts(sorted);
      if out == Done {
        SettledAfterSorting(old(files), files, servers);
        AllListed(old(files), files, servers);
      }
    }
  }

  /** The SQL files a host of this type gets. */
  ghost predicate SqlOf(hostType: HostType, ip: string, p: Path) {
    || (p == Path(MasterSql, Some(ip)) && (hostType == Master || hostType == Both))
    || (p == Path(SlaveSql, Some(ip)) && (hostType == Slave || hostType == Both))
  }

  /** While the file of `ip` is being written: compose files of the addresses seen, SQL files of the finished ones. */
  ghost predicate Progress(base: map<Path, seq<Entry>>, files: map<Path, seq<Entry>>, seen: seq<Server>, ip: string) {
    && (forall p :: p in files <==> p in base || Created(seen, ip, p))
    && (forall p :: p in base ==> !Created(seen, ip, p) && files[p] == base[p])
    && (forall a :: Created(seen, ip, Path(DockerCompose, Some(a))) ==>
          files[Path(DockerCompose, Some(a))] == Entries(At(seen, a)))
  }

  /** The first `n` servers are written, the last of them at `ip`, whose host has this type so far. */
  ghost predicate Writing(base: map<Path, seq<Entry>>, files: map<Path, seq<Entry>>, sorted: seq<Server>, n: nat,
                          ip: string, hostType: HostType) {
    && n <= |sorted| && sorted != []
    && ip == sorted[if n == 0 then 0 else n - 1].address
    && Progress(base, files, sorted[..n], ip) && hostType == RoleOf(At(sorted[..n], ip))
  }

  ghost predicate Created(seen: seq<Server>, ip: string, p: Path) {
    p == Path(DockerCompose, Some(ip)) || (Needed(seen, p) && (p.file == DockerCompose || p.ip != Some(ip)))
  }

  /** Between hosts: exactly the files the addresses seen so far need. */
  ghost predicate Settled(base: map<Path, seq<Entry>>, files: map<Path, seq<Entry>>, seen: seq<Server>) {
    && (forall p :: p in files <==> p in base || Needed(seen, p))
    && (forall p :: p in base ==> !Needed(seen, p) && files[p] == base[p])
    && (forall a :: At(seen, a) != [] ==>
          Path(DockerCompose, Some(a)) in files && files[Path(DockerCompose, Some(a))] == Entries(At(seen, a)))
  }

  lemma NothingSeen(base: map<Path, seq<Entry>>)
    ensures Settled(base, base, [])
  {
    forall p ensures !Needed([], p) {
    }
  }

  lemma Started(base: map<Path, seq<Entry>>, before: map<Path, seq<Entry>>, files: map<Path, seq<Entry>>,
                seen: seq<Server>, ip: string)
    requires Settled(base, before, seen)
    requires At(seen, ip) == []
    requires Path(DockerCompose, Some(ip)) !in before && files == before[Path(DockerCompose, Some(ip)) := []]
    ensures Progress(base, files, seen, ip) && RoleOf(At(seen, ip)) == NoType
  {
    assert Entries([]) == [];
    forall p ensures Created(seen, ip, p) <==> p == Path(DockerCompose, Some(ip)) || Needed(seen, p) {
    }
    forall a | Created(seen, ip, Path(DockerCompose, Some(a)))
      ensures files[Path(DockerCompose, Some(a))] == Entries(At(seen, a))
    {
      if a != ip {
        assert Path(DockerCompose, Some(a)) != Path(DockerCompose, Some(ip));
      }
    }
  }

  lemma Printed(base: map<Path, seq<Entry>>, before: map<Path, seq<Entry>>, files: map<Path, seq<Entry>>,
                seen: seq<Server>, ip: string, x: Server)
    requires Progress(base, before, seen, ip) && x.address == ip && Path(DockerCompose, Some(ip)) in before
    requires files == before[Path(DockerCompose, Some(ip)) := before[Path(DockerCompose, Some(ip))] + [EntryOf(x)]]
    ensures Progress(base, files, seen + [x], ip)
    ensures HasMaster(At(seen + [x], ip)) <==> HasMaster(At(seen, ip)) || IsMaster(x)
    ensures HasSlave(At(seen + [x], ip)) <==> HasSlave(At(seen, ip)) || !IsMaster(x)
  {
    AtSnoc(seen, x, ip);
    RoleSnoc(At(seen, ip), x);
    assert Created(seen, ip, Path(DockerCompose, Some(ip)));
    forall p ensures Created(seen + [x], ip, p) <==> Created(seen, ip, p) {
      if p.ip.Some? {
        AtSnoc(seen, x, p.ip.value);
        assert p.ip.value != ip ==> At(seen + [x], p.ip.value) == At(seen, p.ip.value);
      }
    }
    forall a | Created(seen + [x], ip, Path(DockerCompose, Some(a)))
      ensures files[Path(DockerCompose, Some(a))] == Entries(At(seen + [x], a))
    {
      AtSnoc(seen, x, a);
      assert Created(seen, ip, Path(DockerCompose, Some(a)));
      if a == ip {
        assert Entries(At(seen, a) + [x]) == Entries(At(seen, a)) + [EntryOf(x)];
      } else {
        assert Path(DockerCompose, Some(a)) != Path(DockerCompose, Some(ip));
      }
    }
  }

  lemma Finished(base: map<Path, seq<Entry>>, before: map<Path, seq<Entry>>, files: map<Path, seq<Entry>>,
                 seen: seq<Server>, ip: string)
    requires Progress(base, before, seen, ip) && At(seen, ip) != []
    requires forall p :: SqlOf(RoleOf(At(seen, ip)), ip, p) ==> p !in before
    requires forall p :: p in files <==> p in before || SqlOf(RoleOf(At(seen, ip)), ip, p)
    requires forall p :: p in before ==> files[p] == before[p]
    ensures Settled(base, files, seen)
  {
    forall p ensures Needed(seen, p) <==> Created(seen, ip, p) || SqlOf(RoleOf(At(seen, ip)), ip, p) {
    }
    forall a | At(seen, a) != []
      ensures Path(DockerCompose, Some(a)) in files && files[Path(DockerCompose, Some(a))] == Entries(At(seen, a))
    {
      assert Created(seen, ip, Path(DockerCompose, Some(a)));
    }
  }

  /** What some of the servers need, all of them need. */
  lemma NeededInAll(xs: seq<Server>, n: nat, p: Path)
    requires n <= |xs| && Needed(xs[..n], p)
    ensures Needed(xs, p)
  {
    AtPrefix(xs, n, p.ip.value);
    var some, all := At(xs[..n], p.ip.value), At(xs, p.ip.value);
    if i :| 0 <= i < |some| && IsMaster(some[i]) {
      assert IsMaster(all[i]);
    }
    if i :| 0 <= i < |some| && !IsMaster(some[i]) {
      assert !IsMaster(all[i]);
    }
  }

  lemma SettledAfterSorting(base: map<Path, seq<Entry>>, files: map<Path, seq<Entry>>, servers: seq<Server>)
    requires Settled(base, files, SortByAddress(servers))
    ensures Settled(base, files, servers)
  {
    SortKeepsAll(servers);
  }

  lemma {:induction false} AtPrefix(xs: seq<Server>, n: nat, a: string)
    requires n <= |xs|
    ensures At(xs[..n], a) <= At(xs, a)
  {
    if n == |xs| {
      assert xs[..n] == xs;
    } else {
      var m := |xs| - 1;
      assert xs[..n] == xs[..m][..n];
      AtPrefix(xs[..m], n, a);
    }
  }

  lemma {:induction false} AtMember(xs: seq<Server>, i: nat)
    requires i < |xs|
    ensures At(xs, xs[i].address) != []
  {
    if i < |xs| - 1 {
      AtMember(xs[..|xs| - 1], i);
    }
  }

  lemma {:induction false} AtNone(xs: seq<Server>, a: string)
    requires forall i :: 0 <= i < |xs| ==> xs[i].address != a
    ensures At(xs, a) == []
  {
    if xs != [] {
      AtNone(xs[..|xs| - 1], a);
    }
  }

  /** In a sorted list an address that differs from the one before has not been seen. */
  lemma NewAddress(xs: seq<Server>, n: nat)
    requires Ordered(xs) && 0 < n < |xs| && xs[n - 1].address != xs[n].address
    ensures At(xs[..n], xs[n].address) == []
  {
    forall i | 0 <= i < n ensures xs[i].address != xs[n].address {
      LeTotal(xs[n - 1].address, xs[n].address);
    }
    AtNone(xs[..n], xs[n].address);
  }

  lemma SortKeepsAll(xs: seq<Server>)
    ensures forall a :: At(SortByAddress(xs), a) == At(xs, a)
    ensures forall p :: Needed(SortByAddress(xs), p) <==> Needed(xs, p)
  {
    forall a ensures At(SortByAddress(xs), a) == At(xs, a) {
      SortKeepsGroups(xs, a);
    }
  }

  // ---- What the generated files mean ----

  /** The compose file of its address lists the server: the first with the master's SQL, under an id that counts from
      1000, at its port. */
  ghost predicate Listed(files: map<Path, seq<Entry>>, s: Server) {
    && Path(DockerCompose, Some(s.address)) in files
    && Entry(s.name, s.index == 0, 1000 + s.index, s.port) in files[Path(DockerCompose, Some(s.address))]
  }

  lemma AllListed(base: map<Path, seq<Entry>>, files: map<Path, seq<Entry>>, servers: seq<Server>)
    requires Settled(base, files, servers)
    ensures forall j :: 0 <= j < |servers| ==> Listed(files, servers[j])
  {
    forall j | 0 <= j < |servers| ensures Listed(files, servers[j]) {
      var s := servers[j];
      AtComplete(servers, j);
      var i :| 0 <= i < |At(servers, s.address)| && At(servers, s.address)[i] == s;
      assert Entries(At(servers, s.address))[i] == Entry(s.name, s.index == 0, 1000 + s.index, s.port);
    }
  }

  /** Whatever a generated compose file lists is a server at its address. */
  lemma ListedIsServer(base: map<Path, seq<Entry>>, files: map<Path, seq<Entry>>, servers: seq<Server>,
                       a: string, i: nat)
    requires Settled(base, files, servers) && At(servers, a) != []
    requires i < |files[Path(DockerCompose, Some(a))]|
    ensures var e := files[Path(DockerCompose, Some(a))][i];
      exists j ::
        && 0 <= j < |servers| && servers[j].address == a
        && e == Entry(servers[j].name, servers[j].index == 0, 1000 + servers[j].index, servers[j].port)
  {
    AtSound(servers, a, i);
    var j :| 0 <= j < |servers| && At(servers, a)[i] == servers[j] && servers[j].address == a;
    assert files[Path(DockerCompose, Some(a))][i] == EntryOf(servers[j]);
  }

  /** Servers as the configuration numbers them. */
  ghost predicate Numbered(servers: seq<Server>) {
    forall i :: 0 <= i < |servers| ==> servers[i].index == i
  }

  lemma {:induction false} AtSound(xs: seq<Server>, a: string, i: nat)
    requires i < |At(xs, a)|
    ensures exists j :: 0 <= j < |xs| && At(xs, a)[i] == xs[j] && xs[j].address == a
  {
    var n := |xs| - 1;
    if i < |At(xs[..n], a)| {
      AtSound(xs[..n], a, i);
      var j :| 0 <= j < n && At(xs[..n], a)[i] == xs[..n][j] && xs[..n][j].address == a;
      assert xs[j].address == a;
    } else {
      assert xs[n].address == a;
    }
  }

  lemma {:induction false} AtComplete(xs: seq<Server>, j: nat)
    requires j < |xs|
    ensures xs[j] in At(xs, xs[j].address)
  {
    if j < |xs| - 1 {
      AtComplete(xs[..|xs| - 1], j);
    }
  }

  /** A compose file is needed for exactly the addresses of the servers. Master SQL is needed on exactly one host, that
      of server 0; slave SQL on exactly the hosts of the others. */
  lemma OneMasterHost(servers: seq<Server>, a: string)
    requires Numbered(servers) && servers != []
    ensures Needed(servers, Path(DockerCompose, Some(a))) <==> exists i :: 0 <= i < |servers| && servers[i].address == a
    ensures Needed(servers, Path(MasterSql, Some(a))) <==> a == servers[0].address
    ensures Needed(servers, Path(SlaveSql, Some(a))) <==> exists i :: 0 < i < |servers| && servers[i].address == a
  {
    var g := At(servers, a);
    if g != [] {
      AtSound(servers, a, 0);
    }
    if j :| 0 <= j < |servers| && servers[j].address == a {
      AtComplete(servers, j);
    }
    if i :| 0 <= i < |g| && IsMaster(g[i]) {
      AtSound(servers, a, i);
    }
    if i :| 0 <= i < |g| && !IsMaster(g[i]) {
      AtSound(servers, a, i);
      var j :| 0 <= j < |servers| && g[i] == servers[j] && servers[j].address == a;
      assert 0 < j;
    }
    if a == servers[0].address {
      AtComplete(servers, 0);
      var i :| 0 <= i < |g| && g[i] == servers[0];
      assert IsMaster(g[i]);
    }
    if j :| 0 < j < |servers| && servers[j].address == a {
      AtComplete(servers, j);
      var i :| 0 <= i < |g| && g[i] == servers[j];
      assert !IsMaster(g[i]);
    }
  }

  /** Across all compose files, two entries with the same server id are the same server. */
  lemma ServerIdsAreUnique(servers: seq<Server>, a: string, i: nat, b: string, j: nat)
    requires Numbered(servers) && i < |At(servers, a)| && j < |At(servers, b)|
    requires Entries(At(servers, a))[i].serverId == Entries(At(servers, b))[j].serverId
    ensures a == b && At(servers, a)[i] == At(servers, b)[j]
  {
    AtSound(servers, a, i);
    AtSound(servers, b, j);
  }

  // ---- Path names ----

  function FileName(f: File): string {
    match f
    case DockerCompose => "/docker-compose.yml"
    case MaxScaleCnf => "/maxscale.cnf"
    case SystemTestCnf => "/maxscale.cnf-systest"
    case MasterSql => "/sql/master/01-create-users.sql"
    case SlaveSql => "/sql/slave/01-setup-replication.sql"
  }

  function Render(outdir: string, p: Path): string {
    outdir + (match p.ip case Some(ip) => "/" + ip case None => "") + FileName(p.file)
  }

  /** Which paths the script asks for: only the two configuration files have no address. */
  predicate WellFormed(p: Path) {
    p.ip.None? <==> p.file.MaxScaleCnf? || p.file.SystemTestCnf?
  }

  /** Three characters from the end of the name that tell the files apart. */
  function Ending(f: File): (char, char, char) {
    match f
    case DockerCompose => ('e', 'y', 'l')
    case MaxScaleCnf => ('e', 'c', 'f')
    case SystemTestCnf => ('s', 'e', 't')
    case MasterSql => ('s', 's', 'l')
    case SlaveSql => ('n', 's', 'l')
  }

  lemma NameEndsInFile(outdir: string, p: Path)
    ensures var s := Render(outdir, p);
      |s| >= 5 && Ending(p.file) == (s[|s| - 5], s[|s| - 3], s[|s| - 1])
  {
    var s, f := Render(outdir, p), FileName(p.file);
    assert s[|s| - |f|..] == f;
    assert s[|s| - 5] == f[|f| - 5] && s[|s| - 3] == f[|f| - 3] && s[|s| - 1] == f[|f| - 1];
  }

  /** Different paths have different names, so nothing is lost by telling files apart by kind and address. */
  lemma NamesAreDistinct(outdir: string, p: Path, q: Path)
    requires WellFormed(p) && WellFormed(q) && Render(outdir, p) == Render(outdir, q)
    ensures p == q
  {
    var s, t := Render(outdir, p), Render(outdir, q);
    var f, g := FileName(p.file), FileName(q.file);
    NameEndsInFile(outdir, p);
    NameEndsInFile(outdir, q);
    assert Ending(p.file) == Ending(q.file);
    assert p.file == q.file;
    if p.ip.Some? {
      assert s[|outdir| + 1..|s| - |f|] == p.ip.value;
      assert t[|outdir| + 1..|t| - |g|] == q.ip.value;
    }
  }
}
