/** The parameter dictionaries for the generated configuration files. */
module Parameters {
  import opened Collections
  import opened Text
  import opened DockerEnv

  datatype Value = Str(s: string) | Num(n: nat)

  // ---- Decimal indexes ----

  function Digit(n: nat): char
    requires n < 10
  {
    ['0', '1', '2', '3', '4', '5', '6', '7', '8', '9'][n]
  }

  predicate IsDigit(c: char) { '0' <= c <= '9' }

  function Decimal(n: nat): (s: string)
    ensures s != "" && forall i :: 0 <= i < |s| ==> IsDigit(s[i])
  {
    if n < 10 then [Digit(n)] else Decimal(n / 10) + [Digit(n % 10)]
  }

  /** The number a string of digits stands for. */
  function NumberOf(s: string): nat
    requires forall i :: 0 <= i < |s| ==> IsDigit(s[i])
  {
    if s == "" then 0
    else
      assert IsDigit(s[|s| - 1]);
      10 * NumberOf(s[..|s| - 1]) + (s[|s| - 1] as int - '0' as int)
  }

  lemma {:induction false} DecimalRoundTrip(n: nat)
    ensures NumberOf(Decimal(n)) == n
  {
    if n < 10 {
      assert NumberOf("") == 0;
    } else {
      DecimalRoundTrip(n / 10);
      assert Decimal(n)[..|Decimal(n)| - 1] == Decimal(n / 10);
    }
  }

  lemma DecimalInjective(m: nat, n: nat)
    requires Decimal(m) == Decimal(n)
    ensures m == n
  {
    DecimalRoundTrip(m);
    DecimalRoundTrip(n);
  }

  // ---- Keys ----

  datatype Key =
    | Threads | User | Password | ServerList
    | ServerName(i: nat) | ServerAddress(i: nat) | ServerPort(i: nat)

  function KeyName(k: Key): string {
    match k
    case Threads => "threads"
    case User => "user"
    case Password => "password"
    case ServerList => "server_list"
    case ServerName(i) => "server" + Decimal(i)
    case ServerAddress(i) => "address" + Decimal(i)
    case ServerPort(i) => "port" + Decimal(i)
  }

  /** Keys of different kinds differ within their first seven characters. */
  lemma KindsDiffer(k: Key, l: Key)
    requires KeyName(k) == KeyName(l)
    ensures match k
            case ServerName(_) => l.ServerName?
            case ServerAddress(_) => l.ServerAddress?
            case ServerPort(_) => l.ServerPort?
            case _ => k == l
  {
    Marks(k);
    Marks(l);
  }

  /** The first two characters of a key, and for the server keys the seventh, tell its kind. */
  lemma Marks(k: Key)
    ensures var s := KeyName(k);
      && |s| >= 4
      && match k
         case Threads => s[0] == 't'
         case User => s[0] == 'u'
         case Password => s[0] == 'p' && s[1] == 'a'
         case ServerList => s[0] == 's' && |s| >= 7 && s[6] == '_'
         case ServerName(_) => s[0] == 's' && |s| >= 7 && IsDigit(s[6])
         case ServerAddress(_) => s[0] == 'a'
         case ServerPort(_) => s[0] == 'p' && s[1] == 'o'
  {
    match k {
      case ServerName(i) => assert KeyName(k)[6] == Decimal(i)[0];
      case _ =>
    }
  }

  /** No two keys collide. */
  lemma KeysAreDistinct(k: Key, l: Key)
    requires KeyName(k) == KeyName(l)
    ensures k == l
  {
    KindsDiffer(k, l);
    match k {
      case ServerName(i) =>
        assert KeyName(k)[6..] == Decimal(i) && KeyName(l)[6..] == Decimal(l.i);
        DecimalInjective(i, l.i);
      case ServerAddress(i) =>
        assert KeyName(k)[7..] == Decimal(i) && KeyName(l)[7..] == Decimal(l.i);
        DecimalInjective(i, l.i);
      case ServerPort(i) =>
        assert KeyName(k)[4..] == Decimal(i) && KeyName(l)[4..] == Decimal(l.i);
        DecimalInjective(i, l.i);
      case _ =>
    }
  }

  // ---- Server lists ----

  /** Names appended one by one, with a separator in front once something is there. */
  function Appended(names: seq<string>): string {
    if names == [] then ""
    else
      var list := Appended(names[..|names| - 1]);
      list + (if list != "" then ", " else "") + names[|names| - 1]
  }

  lemma {:induction false} JoinSnoc(parts: seq<string>, x: string, d: string)
    requires parts != []
    ensures Join(parts + [x], d) == Join(parts, d) + d + x
  {
    if |parts| == 1 {
      assert (parts + [x])[1..] == [x];
    } else {
      JoinSnoc(parts[1..], x, d);
      assert (parts + [x])[1..] == parts[1..] + [x];
    }
  }

  lemma {:induction false} AppendedIsJoin(names: seq<string>)
    requires names != [] && names[0] != ""
    ensures Appended(names) == Join(names, ", ") != ""
  {
    var n := |names| - 1;
    if n > 0 {
      AppendedIsJoin(names[..n]);
      JoinSnoc(names[..n], names[n], ", ");
      assert names[..n] + [names[n]] == names;
    } else {
      assert Appended(names[..0]) == "";
    }
  }

  lemma {:induction false} AppendedIsShorter(names: seq<string>)
    requires |names| >= 2 && names[0] == ""
    ensures |Appended(names)| + 2 <= |Join(names, ", ")|
  {
    var n := |names| - 1;
    JoinSnoc(names[..n], names[n], ", ");
    assert names[..n] + [names[n]] == names;
    if n > 1 {
      AppendedIsShorter(names[..n]);
    } else {
      assert names[..1][..0] == [] && Appended(names[..1]) == "" && Join(names[..1], ", ") == "";
    }
  }

  /** The list is the join of the names exactly when there is at most one name or the first is not empty. */
  lemma ServerListIff(names: seq<string>)
    ensures Appended(names) == Join(names, ", ") <==> |names| <= 1 || names[0] != ""
  {
    if |names| == 1 {
      assert names[..0] == [];
    } else if |names| >= 2 {
      if names[0] != "" {
        AppendedIsJoin(names);
      } else {
        AppendedIsShorter(names);
      }
    }
  }

  // ---- Dictionaries ----

  /** What a dictionary says about one server. */
  datatype Fields = Fields(name: string, address: string, port: Value)

  function LocalFields(s: Server): Fields {
    Fields(s.name, s.address, Num(s.port))
  }

  /** The placeholders of the system tests count from 1. */
  function TestFields(s: Server): Fields {
    Fields("server" + Decimal(s.index + 1), "###node_server_IP_" + Decimal(s.index + 1) + "###",
           Str("###node_port_" + Decimal(s.index + 1) + "###"))
  }

  function Each(servers: seq<Server>, f: Server -> Fields): seq<Fields> {
    seq(|servers|, i requires 0 <= i < |servers| => f(servers[i]))
  }

  function Names(fs: seq<Fields>): seq<string> {
    seq(|fs|, i requires 0 <= i < |fs| => fs[i].name)
  }

  /** What the dictionary must hold under each key once the servers are entered. */
  function Expected(threads: string, fs: seq<Fields>, k: Key): Option<Value> {
    match k
    case Threads => Some(Str(threads))
    case User => Some(Str("maxskysql"))
    case Password => Some(Str("skysql"))
    case ServerList => Some(Str(Appended(Names(fs))))
    case ServerName(i) => if i < |fs| then Some(Str(fs[i].name)) else None
    case ServerAddress(i) => if i < |fs| then Some(Str(fs[i].address)) else None
    case ServerPort(i) => if i < |fs| then Some(fs[i].port) else None
  }

  ghost predicate Agrees(params: map<string, Value>, k: Key, v: Option<Value>) {
    match v
    case Some(x) => KeyName(k) in params && params[KeyName(k)] == x
    case None => KeyName(k) !in params
  }

  /** The dictionary has exactly the expected entries, the server list apart. */
  ghost predicate Entered(params: map<string, Value>, threads: string, fs: seq<Fields>) {
    && (forall k: Key :: k != ServerList ==> Agrees(params, k, Expected(threads, fs, k)))
    && (forall s :: s in params ==> exists k: Key :: KeyName(k) == s)
  }

  /** The dictionary has exactly the expected entries. */
  ghost predicate Complete(params: map<string, Value>, threads: string, fs: seq<Fields>) {
    && (forall k: Key :: Agrees(params, k, Expected(threads, fs, k)))
    && (forall s :: s in params ==> exists k: Key :: KeyName(k) == s)
  }

  /** Both dictionaries, filled in one pass over the servers: every key looks up what it should and nothing else is
      there. */
  method CreateParameterDicts(threads: string, servers: seq<Server>)
    returns (maxscale: map<string, Value>, systest: map<string, Value>)
    requires Numbered(servers)
    ensures Complete(maxscale, threads, Each(servers, LocalFields))
    ensures Complete(systest, "###threads###", Each(servers, TestFields))
    ensures forall i :: 0 <= i < |servers| ==> LocalEntries(maxscale, i, servers[i]) && TestEntries(systest, i)
    ensures Defaults(maxscale, threads) && Defaults(systest, "###threads###")
    ensures Holds(maxscale, "server_list", Str(Appended(LocalNames(servers))))
    ensures Holds(systest, "server_list", Str(Appended(TestNames(|servers|))))
  {
    maxscale := Fixed(threads);
    systest := Fixed("###threads###");
    var localList, testerList := "", "";
    for n := 0 to |servers|
      invariant Entered(maxscale, threads, Each(servers[..n], LocalFields))
      invariant Entered(systest, "###threads###", Each(servers[..n], TestFields))
      invariant localList == Appended(Names(Each(servers[..n], LocalFields)))
      invariant testerList == Appended(Names(Each(servers[..n], TestFields)))
    {
      var server := servers[n];
      localList := Append(localList, LocalFields(server), Each(servers[..n], LocalFields));
      testerList := Append(testerList, TestFields(server), Each(servers[..n], TestFields));
      maxscale := Enter(maxscale, server.index, LocalFields(server), threads, Each(servers[..n], LocalFields));
      systest := Enter(systest, server.index, TestFields(server), "###threads###", Each(servers[..n], TestFields));
      EachSnoc(servers, n, LocalFields);
      EachSnoc(servers, n, TestFields);
    }
    assert servers[..|servers|] == servers;
    maxscale := EnterList(maxscale, localList, threads, Each(servers, LocalFields));
    systest := EnterList(systest, testerList, "###threads###", Each(servers, TestFields));
    ReadOff(maxscale, systest, threads, servers);
  }

  ghost predicate Holds(params: map<string, Value>, key: string, v: Value) {
    key in params && params[key] == v
  }

  /** The local dictionary has server number `i` as it is configured. */
  ghost predicate LocalEntries(params: map<string, Value>, i: nat, s: Server) {
    && Holds(params, "server" + Decimal(i), Str(s.name))
    && Holds(params, "address" + Decimal(i), Str(s.address))
    && Holds(params, "port" + Decimal(i), Num(s.port))
  }

  /** The dictionary of the system tests has placeholders for server number `i`, which count from 1. */
  ghost predicate TestEntries(params: map<string, Value>, i: nat) {
    && Holds(params, "server" + Decimal(i), Str("server" + Decimal(i + 1)))
    && Holds(params, "address" + Decimal(i), Str("###node_server_IP_" + Decimal(i + 1) + "###"))
    && Holds(params, "port" + Decimal(i), Str("###node_port_" + Decimal(i + 1) + "###"))
  }

  /** What both dictionaries have besides the servers. */
  ghost predicate Defaults(params: map<string, Value>, threads: string) {
    && Holds(params, "threads", Str(threads))
    && Holds(params, "user", Str("maxskysql")) && Holds(params, "password", Str("skysql"))
  }

  function LocalNames(servers: seq<Server>): seq<string> {
    seq(|servers|, i requires 0 <= i < |servers| => servers[i].name)
  }

  function TestNames(n: nat): seq<string> {
    seq(n, i requires 0 <= i => "server" + Decimal(i + 1))
  }

  /** What the two dictionaries hold, key by key. */
  lemma ReadOff(maxscale: map<string, Value>, systest: map<string, Value>, threads: string, servers: seq<Server>)
    requires Numbered(servers)
    requires Complete(maxscale, threads, Each(servers, LocalFields))
    requires Complete(systest, "###threads###", Each(servers, TestFields))
    ensures forall i :: 0 <= i < |servers| ==> LocalEntries(maxscale, i, servers[i]) && TestEntries(systest, i)
    ensures Defaults(maxscale, threads) && Defaults(systest, "###threads###")
    ensures Holds(maxscale, "server_list", Str(Appended(LocalNames(servers))))
    ensures Holds(systest, "server_list", Str(Appended(TestNames(|servers|))))
  {
    forall i | 0 <= i < |servers| ensures LocalEntries(maxscale, i, servers[i]) && TestEntries(systest, i) {
      ReadLocal(maxscale, threads, servers, i);
      ReadTest(systest, "###threads###", servers, i);
    }
    ReadDefaults(maxscale, threads, Each(servers, LocalFields));
    ReadDefaults(systest, "###threads###", Each(servers, TestFields));
    ReadList(maxscale, threads, Each(servers, LocalFields));
    ReadList(systest, "###threads###", Each(servers, TestFields));
    SameNames(servers);
  }

  lemma ReadDefaults(params: map<string, Value>, threads: string, fs: seq<Fields>)
    requires Complete(params, threads, fs)
    ensures Defaults(params, threads)
  {
    assert Agrees(params, Threads, Expected(threads, fs, Threads));
    assert Agrees(params, User, Expected(threads, fs, User));
    assert Agrees(params, Password, Expected(threads, fs, Password));
  }

  lemma ReadList(params: map<string, Value>, threads: string, fs: seq<Fields>)
    requires Complete(params, threads, fs)
    ensures Holds(params, "server_list", Str(Appended(Names(fs))))
  {
    assert Agrees(params, ServerList, Expected(threads, fs, ServerList));
  }

  lemma SameNames(servers: seq<Server>)
    requires Numbered(servers)
    ensures Names(Each(servers, LocalFields)) == LocalNames(servers)
    ensures Names(Each(servers, TestFields)) == TestNames(|servers|)
  {
    forall i | 0 <= i < |servers|
      ensures Names(Each(servers, LocalFields))[i] == LocalNames(servers)[i]
      ensures Names(Each(servers, TestFields))[i] == TestNames(|servers|)[i]
    {
      assert Each(servers, LocalFields)[i] == LocalFields(servers[i]);
      assert Each(servers, TestFields)[i] == TestFields(servers[i]) && servers[i].index == i;
    }
  }

  lemma ReadLocal(params: map<string, Value>, threads: string, servers: seq<Server>, i: nat)
    requires Complete(params, threads, Each(servers, LocalFields)) && i < |servers|
    ensures LocalEntries(params, i, servers[i])
  {
    assert Each(servers, LocalFields)[i] == LocalFields(servers[i]);
    ReadServer(params, threads, Each(servers, LocalFields), i);
  }

  lemma ReadTest(params: map<string, Value>, threads: string, servers: seq<Server>, i: nat)
    requires Complete(params, threads, Each(servers, TestFields)) && Numbered(servers) && i < |servers|
    ensures TestEntries(params, i)
  {
    assert Each(servers, TestFields)[i] == TestFields(servers[i]) && servers[i].index == i;
    ReadServer(params, threads, Each(servers, TestFields), i);
  }

  lemma ReadServer(params: map<string, Value>, threads: string, fs: seq<Fields>, i: nat)
    requires Complete(params, threads, fs) && i < |fs|
    ensures Holds(params, "server" + Decimal(i), Str(fs[i].name))
    ensures Holds(params, "address" + Decimal(i), Str(fs[i].address))
    ensures Holds(params, "port" + Decimal(i), fs[i].port)
  {
    assert Agrees(params, ServerName(i), Expected(threads, fs, ServerName(i)));
    assert Agrees(params, ServerAddress(i), Expected(threads, fs, ServerAddress(i)));
    assert Agrees(params, ServerPort(i), Expected(threads, fs, ServerPort(i)));
  }

  lemma EachSnoc(servers: seq<Server>, n: nat, f: Server -> Fields)
    requires n < |servers|
    ensures Each(servers[..n + 1], f) == Each(servers[..n], f) + [f(servers[n])]
  {
  }

  /** Append a name, with a separator if something is there. */
  method Append(list: string, f: Fields, ghost fs: seq<Fields>) returns (longer: string)
    requires list == Appended(Names(fs))
    ensures longer == Appended(Names(fs + [f]))
  {
    longer := list;
    if |longer| != 0 {
      longer := longer + ", ";
    }
    longer := longer + f.name;
    assert Names(fs + [f])[..|fs|] == Names(fs);
  }

  /** Enter the fields of server number `i`. */
  method Enter(params: map<string, Value>, i: nat, f: Fields, ghost threads: string, ghost fs: seq<Fields>)
    returns (more: map<string, Value>)
    requires Entered(params, threads, fs) && i == |fs|
    ensures Entered(more, threads, fs + [f])
  {
    more := params["server" + Decimal(i) := Str(f.name)];
    more := more["address" + Decimal(i) := Str(f.address)];
    more := more["port" + Decimal(i) := f.port];
    EnteredOne(params, more, threads, fs, f);
  }

  method EnterList(params: map<string, Value>, list: string, ghost threads: string, ghost fs: seq<Fields>)
    returns (more: map<string, Value>)
    requires Entered(params, threads, fs) && list == Appended(Names(fs))
    ensures Complete(more, threads, fs)
  {
    more := params["server_list" := Str(list)];
    assert KeyName(ServerList) == "server_list";
    forall k: Key ensures Agrees(more, k, Expected(threads, fs, k)) {
      Apart(k, ServerList);
      assert k != ServerList ==> Agrees(params, k, Expected(threads, fs, k));
    }
  }

  method Fixed(threads: string) returns (params: map<string, Value>)
    ensures Entered(params, threads, [])
  {
    params := map["threads" := Str(threads), "user" := Str("maxskysql"), "password" := Str("skysql")];
    assert KeyName(Threads) in params && KeyName(User) in params && KeyName(Password) in params;
    forall k: Key | k != ServerList ensures Agrees(params, k, Expected(threads, [], k)) {
      Apart(k, Threads);
      Apart(k, User);
      Apart(k, Password);
    }
  }

  lemma EnteredOne(before: map<string, Value>, after: map<string, Value>, threads: string, fs: seq<Fields>, f: Fields)
    requires Entered(before, threads, fs)
    requires after == before[KeyName(ServerName(|fs|)) := Str(f.name)]
                            [KeyName(ServerAddress(|fs|)) := Str(f.address)][KeyName(ServerPort(|fs|)) := f.port]
    ensures Entered(after, threads, fs + [f])
  {
    var i := |fs|;
    Apart(ServerName(i), ServerAddress(i));
    Apart(ServerName(i), ServerPort(i));
    Apart(ServerAddress(i), ServerPort(i));
    forall k: Key | k != ServerList ensures Agrees(after, k, Expected(threads, fs + [f], k)) {
      Apart(k, ServerName(i));
      Apart(k, ServerAddress(i));
      Apart(k, ServerPort(i));
      assert Agrees(before, k, Expected(threads, fs, k));
    }
  }

  lemma Apart(k: Key, l: Key)
    ensures KeyName(k) == KeyName(l) <==> k == l
  {
    if KeyName(k) == KeyName(l) {
      KeysAreDistinct(k, l);
    }
  }
}
