/** Statement classification: the type mask of a statement and the routing rule it selects. */
module QueryTypes {

  // Bits of the type mask.
  const TYPE_READ: bv32 := 0x2
  const TYPE_WRITE: bv32 := 0x4
  const TYPE_MASTER_READ: bv32 := 0x8
  const TYPE_SESSION_WRITE: bv32 := 0x10
  const TYPE_USERVAR_WRITE: bv32 := 0x20
  const TYPE_USERVAR_READ: bv32 := 0x40
  const TYPE_SYSVAR_READ: bv32 := 0x80
  const TYPE_GSYSVAR_READ: bv32 := 0x100
  const TYPE_GSYSVAR_WRITE: bv32 := 0x200
  const TYPE_BEGIN_TRX: bv32 := 0x400
  const TYPE_ENABLE_AUTOCOMMIT: bv32 := 0x800
  const TYPE_DISABLE_AUTOCOMMIT: bv32 := 0x1000
  const TYPE_ROLLBACK: bv32 := 0x2000
  const TYPE_COMMIT: bv32 := 0x4000
  const TYPE_PREPARE_NAMED_STMT: bv32 := 0x8000
  const TYPE_PREPARE_STMT: bv32 := 0x1_0000
  const TYPE_EXEC_STMT: bv32 := 0x2_0000
  const TYPE_CREATE_TMP_TABLE: bv32 := 0x4_0000

  const ROUTE_TO_RR: bv32 :=
    TYPE_READ | TYPE_MASTER_READ | TYPE_USERVAR_READ | TYPE_SYSVAR_READ | TYPE_GSYSVAR_READ
  const ROUTE_TO_ALL: bv32 :=
    TYPE_SESSION_WRITE | TYPE_USERVAR_WRITE | TYPE_GSYSVAR_WRITE | TYPE_ENABLE_AUTOCOMMIT | TYPE_DISABLE_AUTOCOMMIT
  const TRX_BEGIN: bv32 := TYPE_BEGIN_TRX
  const TRX_END: bv32 := TYPE_ROLLBACK | TYPE_COMMIT
  const ROUTE_TO_WRITE: bv32 :=
    TYPE_WRITE | TYPE_PREPARE_NAMED_STMT | TYPE_PREPARE_STMT | TYPE_EXEC_STMT | TYPE_CREATE_TMP_TABLE

  datatype Command = Query | InitDb | Quit | FieldList | Other

  /** The five questions the router asks about a type mask. */
  datatype Traits = Traits(write: bool, begin: bool, end: bool, read: bool, session: bool)

  function TraitsOf(types: bv32): Traits {
    Traits(types & ROUTE_TO_WRITE != 0, types & TRX_BEGIN != 0, types & TRX_END != 0,
           types & ROUTE_TO_RR != 0, types & ROUTE_TO_ALL != 0)
  }

  /** A client statement as the router sees it. */
  datatype Statement = Statement(command: Command, traits: Traits)

  /** The classifier's mask counts only for COM_QUERY. */
  function TypesFor(command: Command, mask: bv32): bv32 {
    match command
    case Query => mask
    case InitDb => ROUTE_TO_ALL
    case Quit => ROUTE_TO_ALL
    case FieldList => ROUTE_TO_RR
    case Other => 0
  }

  function Classify(command: Command, mask: bv32): Statement {
    Statement(command, TraitsOf(TypesFor(command, mask)))
  }

  /** The rule that routes a statement, before any backend is chosen. */
  datatype Rule = ToWriter | RoundRobin | ToAll | Reject

  /** The decision of the router, in the order of its tests. */
  function RuleFor(t: Traits, onTransaction: bool, hasWriter: bool, hasCandidate: bool): Rule {
    if t.write then
      if hasWriter then ToWriter else Reject
    else if (t.begin || onTransaction) && hasWriter then ToWriter
    else if t.read then
      if hasCandidate then RoundRobin else Reject
    else if t.session then ToAll
    else Reject
  }

  /** Whether a transaction is on after the statement. */
  function TransactionAfter(t: Traits, onTransaction: bool): bool {
    if t.write then onTransaction else (onTransaction || t.begin) && !t.end
  }

  // The declarative side: statements as sets of flags.

  datatype Flag =
    | Read | Write | MasterRead | SessionWrite | UservarWrite | UservarRead | SysvarRead | GsysvarRead
    | GsysvarWrite | BeginTrx | EnableAutocommit | DisableAutocommit | Rollback | Commit
    | PrepareNamed | PrepareStmt | ExecStmt | CreateTmpTable

  function Bit(f: Flag): bv32 {
    match f
    case Read => TYPE_READ
    case Write => TYPE_WRITE
    case MasterRead => TYPE_MASTER_READ
    case SessionWrite => TYPE_SESSION_WRITE
    case UservarWrite => TYPE_USERVAR_WRITE
    case UservarRead => TYPE_USERVAR_READ
    case SysvarRead => TYPE_SYSVAR_READ
    case GsysvarRead => TYPE_GSYSVAR_READ
    case GsysvarWrite => TYPE_GSYSVAR_WRITE
    case BeginTrx => TYPE_BEGIN_TRX
    case EnableAutocommit => TYPE_ENABLE_AUTOCOMMIT
    case DisableAutocommit => TYPE_DISABLE_AUTOCOMMIT
    case Rollback => TYPE_ROLLBACK
    case Commit => TYPE_COMMIT
    case PrepareNamed => TYPE_PREPARE_NAMED_STMT
    case PrepareStmt => TYPE_PREPARE_STMT
    case ExecStmt => TYPE_EXEC_STMT
    case CreateTmpTable => TYPE_CREATE_TMP_TABLE
  }

  const WRITE_FLAGS: set<Flag> := {Write, PrepareNamed, PrepareStmt, ExecStmt, CreateTmpTable}
  const READ_FLAGS: set<Flag> := {Read, MasterRead, UservarRead, SysvarRead, GsysvarRead}
  const SESSION_FLAGS: set<Flag> := {SessionWrite, UservarWrite, GsysvarWrite, EnableAutocommit, DisableAutocommit}
  const END_FLAGS: set<Flag> := {Rollback, Commit}

  /** `flags` is the set of flags whose bits `types` has. */
  ghost predicate Describes(flags: set<Flag>, types: bv32) {
    forall f: Flag :: f in flags <==> types & Bit(f) != 0
  }

  /** The routing table: the first row that applies decides. */
  ghost function TableRule(flags: set<Flag>, onTransaction: bool, hasWriter: bool, hasCandidate: bool): Rule {
    if flags * WRITE_FLAGS != {} then (if hasWriter then ToWriter else Reject)
    else if hasWriter && (onTransaction || BeginTrx in flags) then ToWriter
    else if flags * READ_FLAGS != {} then (if hasCandidate then RoundRobin else Reject)
    else if flags * SESSION_FLAGS != {} then ToAll
    else Reject
  }

  /** The grouped bit tests are the set tests of the table. */
  lemma MaskTests(flags: set<Flag>, types: bv32)
    requires Describes(flags, types)
    ensures TraitsOf(types) == Traits(flags * WRITE_FLAGS != {}, BeginTrx in flags, flags * END_FLAGS != {},
                                      flags * READ_FLAGS != {}, flags * SESSION_FLAGS != {})
  {
    WriteBits(types);
    ReadBits(types);
    SessionBits(types);
    EndBits(types);
    SomeFlag(flags, WRITE_FLAGS);
    SomeFlag(flags, READ_FLAGS);
    SomeFlag(flags, SESSION_FLAGS);
    SomeFlag(flags, END_FLAGS);
    assert BeginTrx in flags <==> types & Bit(BeginTrx) != 0;
  }

  lemma WriteBits(types: bv32)
    ensures TraitsOf(types).write <==>
      types & Bit(Write) != 0 || types & Bit(PrepareNamed) != 0 || types & Bit(PrepareStmt) != 0
      || types & Bit(ExecStmt) != 0 || types & Bit(CreateTmpTable) != 0
  {
  }

  lemma ReadBits(types: bv32)
    ensures TraitsOf(types).read <==>
      types & Bit(Read) != 0 || types & Bit(MasterRead) != 0 || types & Bit(UservarRead) != 0
      || types & Bit(SysvarRead) != 0 || types & Bit(GsysvarRead) != 0
  {
  }

  lemma SessionBits(types: bv32)
    ensures TraitsOf(types).session <==>
      types & Bit(SessionWrite) != 0 || types & Bit(UservarWrite) != 0 || types & Bit(GsysvarWrite) != 0
      || types & Bit(EnableAutocommit) != 0 || types & Bit(DisableAutocommit) != 0
  {
  }

  lemma EndBits(types: bv32)
    ensures TraitsOf(types).end <==> types & Bit(Rollback) != 0 || types & Bit(Commit) != 0
  {
  }

  lemma SomeFlag(flags: set<Flag>, group: set<Flag>)
    ensures flags * group != {} <==> exists f :: f in group && f in flags
  {
    if f :| f in group && f in flags {
      assert f in flags * group;
    }
  }

  /** A COM_QUERY is classified by its mask: each trait says whether the mask has a flag of one group. */
  lemma QueryIsItsMask(flags: set<Flag>, mask: bv32)
    requires Describes(flags, mask)
    ensures Classify(Query, mask)
         == Statement(Query, Traits(flags * WRITE_FLAGS != {}, BeginTrx in flags, flags * END_FLAGS != {},
                                    flags * READ_FLAGS != {}, flags * SESSION_FLAGS != {}))
  {
    MaskTests(flags, mask);
  }

  /** For every COM_QUERY and every state of the session the row of the table that its flags choose decides. */
  lemma QueryRoutingRefinesTable(flags: set<Flag>, mask: bv32, onTransaction: bool, hasWriter: bool, hasCandidate: bool)
    requires Describes(flags, mask)
    ensures RuleFor(Classify(Query, mask).traits, onTransaction, hasWriter, hasCandidate)
         == TableRule(flags, onTransaction, hasWriter, hasCandidate)
    ensures TransactionAfter(Classify(Query, mask).traits, onTransaction)
         == if flags * WRITE_FLAGS != {} then onTransaction
            else (onTransaction || BeginTrx in flags) && flags * END_FLAGS == {}
  {
    MaskRoutingRefinesTable(flags, mask, onTransaction, hasWriter, hasCandidate);
  }

  const WRITE_TRAITS := Traits(true, false, false, false, false)
  const BEGIN_TRAITS := Traits(false, true, false, false, false)
  const END_TRAITS := Traits(false, false, true, false, false)

  /** What a COM_QUERY with a single bit is: bits 1 to 18 by their positions in the mask. */
  lemma SingleBits()
    ensures forall m :: m in {0x2, 0x8, 0x40, 0x80, 0x100} ==> Classify(Query, m).traits == READ_TRAITS
    ensures forall m :: m in {0x4, 0x8000, 0x1_0000, 0x2_0000, 0x4_0000} ==> Classify(Query, m).traits == WRITE_TRAITS
    ensures forall m :: m in {0x10, 0x20, 0x200, 0x800, 0x1000} ==> Classify(Query, m).traits == SESSION_TRAITS
    ensures forall m :: m in {0x2000, 0x4000} ==> Classify(Query, m).traits == END_TRAITS
    ensures Classify(Query, 0x400).traits == BEGIN_TRAITS && Classify(Query, 0).traits == NO_TRAITS
  {
    forall m: bv32 ensures Classify(Query, m).traits == Traits(m & 0x7_8004 != 0, m & 0x400 != 0, m & 0x6000 != 0,
                                                              m & 0x1ca != 0, m & 0x1a30 != 0) {
      GroupedBits(m);
    }
  }

  /** The five groups as numbers. */
  lemma GroupedBits(m: bv32)
    ensures Classify(Query, m).traits == Traits(m & 0x7_8004 != 0, m & 0x400 != 0, m & 0x6000 != 0,
                                                m & 0x1ca != 0, m & 0x1a30 != 0)
  {
    assert ROUTE_TO_WRITE == 0x7_8004 && TRX_BEGIN == 0x400 && TRX_END == 0x6000;
    assert ROUTE_TO_RR == 0x1ca && ROUTE_TO_ALL == 0x1a30;
  }

  /** For every mask and every state of the session the bit tests choose the row of the table. */
  lemma MaskRoutingRefinesTable(flags: set<Flag>, types: bv32, onTransaction: bool, hasWriter: bool, hasCandidate: bool)
    requires Describes(flags, types)
    ensures RuleFor(TraitsOf(types), onTransaction, hasWriter, hasCandidate)
         == TableRule(flags, onTransaction, hasWriter, hasCandidate)
    ensures TransactionAfter(TraitsOf(types), onTransaction)
         == if flags * WRITE_FLAGS != {} then onTransaction
            else (onTransaction || BeginTrx in flags) && flags * END_FLAGS == {}
  {
    MaskTests(flags, types);
  }

  const NO_TRAITS := Traits(false, false, false, false, false)
  const SESSION_TRAITS := Traits(false, false, false, false, true)
  const READ_TRAITS := Traits(false, false, false, true, false)

  /** Whatever the mask: COM_INIT_DB and COM_QUIT are broadcast and COM_FIELD_LIST is balanced, unless a
      transaction is pinned to a write backend; any other command is rejected unless it is pinned. */
  lemma CommandRules(command: Command, mask: bv32, onTransaction: bool, hasWriter: bool, hasCandidate: bool)
    requires !command.Query?
    ensures Classify(command, mask).command == command
    ensures Classify(command, mask).traits
         == match command case FieldList => READ_TRAITS case Other => NO_TRAITS case _ => SESSION_TRAITS
    ensures RuleFor(Classify(command, mask).traits, onTransaction, hasWriter, hasCandidate)
         == if onTransaction && hasWriter then ToWriter
            else match command
                 case FieldList => if hasCandidate then RoundRobin else Reject
                 case Other => Reject
                 case _ => ToAll
  {
    assert ROUTE_TO_ALL & ROUTE_TO_WRITE == 0 && ROUTE_TO_ALL & TRX_BEGIN == 0
        && ROUTE_TO_ALL & TRX_END == 0 && ROUTE_TO_ALL & ROUTE_TO_RR == 0;
    assert ROUTE_TO_RR & ROUTE_TO_WRITE == 0 && ROUTE_TO_RR & TRX_BEGIN == 0 && ROUTE_TO_RR & TRX_END == 0
        && ROUTE_TO_RR & ROUTE_TO_ALL == 0;
  }
}
