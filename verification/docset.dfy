/**
  The docset index store: the `searchIndex` table of (name, type, path) rows
  under a unique index, and the connection that must be open to write it.

  The store is a value: whether a connection is open, and the table held by
  the database file (absent in a file this program has never cleared). Rows keep their
  insertion order; row `i` is the one with surrogate id `i + 1`.
 */
module DocSet {
  import opened Wrappers

  /** The entry types the indexer writes into the `type` column. */
  datatype Kind = Class | Method | Const | Function

  /** The text stored in the `type` column for each kind. */
  function TypeName(k: Kind): string
  {
    match k
    case Class => "Class"
    case Method => "Method"
    case Const => "Const"
    case Function => "Function"
  }

  /** Distinct kinds are stored as distinct `type` texts, so the unique index sees kinds exactly. */
  lemma TypeNameInjective(a: Kind, b: Kind)
    requires TypeName(a) == TypeName(b)
    ensures a == b
  {
  }

  /** One row of `searchIndex`, without its surrogate id. */
  datatype Entry = Entry(name: string, kind: Kind, path: string)

  /* ---------------------------------------------------------------------- */
  /* Paths                                                                   */
  /* ---------------------------------------------------------------------- */

  /** The remote documentation root used when online docs are selected. */
  const OnlineDocUrl: string := "http://google.github.io/closure-library/api/"

  /** `ONLINE_DOC_PATH`: the prefix of every stored path. */
  function DocPathPrefix(useOnlineDocs: bool): string
  {
    if useOnlineDocs then OnlineDocUrl else ""
  }

  /** The `format_doc_path` hook: the identity by default, or an `api/` prefix. */
  datatype PathFormat = Identity | ApiPrefix

  function FormatDocPath(f: PathFormat, p: string): (r: string)
    ensures |r| >= |p| && r[|r| - |p|..] == p
  {
    match f
    case Identity => p
    case ApiPrefix => "api/" + p
  }

  /** What a store is configured with: `ONLINE_DOC_PATH` and `format_doc_path`. */
  datatype Config = Config(docPathPrefix: string, format: PathFormat)

  /** A freshly constructed store: the configured prefix and the identity format. */
  function NewConfig(useOnlineDocs: bool): Config
  {
    Config(DocPathPrefix(useOnlineDocs), Identity)
  }

  /** The path written into the `path` column for a document path. */
  function StoredPath(cfg: Config, docPath: string): (p: string)
    ensures |p| >= |docPath| && p[|p| - |docPath|..] == docPath
    ensures |p| >= |cfg.docPathPrefix| && p[..|cfg.docPathPrefix|] == cfg.docPathPrefix
  {
    cfg.docPathPrefix + FormatDocPath(cfg.format, docPath)
  }

  /** Formatting never merges two document paths: distinct inputs give distinct stored paths. */
  lemma StoredPathInjective(cfg: Config, a: string, b: string)
    requires StoredPath(cfg, a) == StoredPath(cfg, b)
    ensures a == b
  {
    var n := |cfg.docPathPrefix| + if cfg.format == ApiPrefix then 4 else 0;
    assert a == StoredPath(cfg, a)[n..];
    assert b == StoredPath(cfg, b)[n..];
  }

  /* ---------------------------------------------------------------------- */
  /* The table                                                               */
  /* ---------------------------------------------------------------------- */

  /** What the unique index over (name, type, path) guarantees. */
  predicate NoDuplicates(rows: seq<Entry>)
  {
    forall i, j :: 0 <= i < j < |rows| ==> rows[i] != rows[j]
  }

  /** `INSERT OR IGNORE`: a row already present is dropped, a new one is appended. */
  function InsertOrIgnore(rows: seq<Entry>, e: Entry): (r: seq<Entry>)
    ensures forall x :: x in r <==> x in rows || x == e
    ensures NoDuplicates(rows) ==> NoDuplicates(r)
    ensures e in rows ==> r == rows
    ensures |rows| <= |r| <= |rows| + 1 && r[..|rows|] == rows
  {
    if e in rows then rows else rows + [e]
  }

  /* ---------------------------------------------------------------------- */
  /* The store and its lifecycle                                             */
  /* ---------------------------------------------------------------------- */

  /** A connection flag and the table in the database file, if it has one. */
  datatype Store = Store(connected: bool, table: Option<seq<Entry>>)

  /** Every table this program creates keeps its rows unique. */
  predicate Valid(st: Store)
  {
    st.table.Some? ==> NoDuplicates(st.table.value)
  }

  /** Inserts succeed: a connection is open and the table exists. */
  predicate Ready(st: Store)
  {
    st.connected && st.table.Some?
  }

  /** The table's rows as a set of triples. */
  function Contents(st: Store): (s: set<Entry>)
    ensures st.table.Some? ==> forall e :: e in s <==> e in st.table.value
    ensures st.table.None? ==> s == {}
  {
    if st.table.Some? then set e | e in st.table.value else {}
  }

  /** `connect()`: opens a connection unless one is already open. */
  function Connect(st: Store): (r: Store)
    ensures r.connected
    ensures r.table == st.table
    ensures st.connected ==> r == st
  {
    if st.connected then st else st.(connected := true)
  }

  /** `clear()`: connects, drops the table if there is one, and creates it empty with its unique index. */
  function Clear(st: Store): (r: Store)
    ensures Ready(r) && Valid(r)
    ensures Contents(r) == {}
  {
    Connect(st).(table := Some([]))
  }

  /** `disconnect()`: commits and closes the connection if one is open. */
  function Disconnect(st: Store): (r: Store)
    ensures !r.connected
    ensures r.table == st.table
    ensures !st.connected ==> r == st
  {
    if st.connected then st.(connected := false) else st
  }

  /** `__enter__`: the store is cleared before anything is inserted. */
  function Enter(st: Store): (r: Store)
    ensures Ready(r) && Valid(r) && Contents(r) == {}
  {
    Clear(st)
  }

  /** `__exit__`: the connection is closed on every way out of the `with` block. */
  function Exit(st: Store): (r: Store)
    ensures !r.connected && r.table == st.table
  {
    Disconnect(st)
  }

  /** Why an insert can fail. */
  datatype StoreError =
    | NotConnected   // no cursor yet, or the cursor of a closed connection
    | NoSuchTable    // connected, but the file has no `searchIndex` table

  /** The row `_add` writes for a name, a document path and a type. */
  function EntryFor(cfg: Config, name: string, docPath: string, kind: Kind): (e: Entry)
    ensures e.name == name && e.kind == kind
    ensures |e.path| >= |docPath| && e.path[|e.path| - |docPath|..] == docPath
  {
    Entry(name, kind, StoredPath(cfg, docPath))
  }

  /**
    `_add` (and so `add_const`, `add_method`, `add_class` and `add_fn`, which
    only choose its type): one `INSERT OR IGNORE` of the formatted row.
   */
  function Insert(cfg: Config, st: Store, name: string, docPath: string, kind: Kind): (r: Result<Store, StoreError>)
    ensures !st.connected ==> r == Err(NotConnected)
    ensures st.connected && st.table.None? ==> r == Err(NoSuchTable)
    ensures Ready(st) ==> r.Ok? && Ready(r.value)
    ensures Ready(st) ==> Contents(r.value) == Contents(st) + {EntryFor(cfg, name, docPath, kind)}
    ensures Ready(st) && Valid(st) ==> Valid(r.value)
  {
    if !st.connected then Err(NotConnected)
    else if st.table.None? then Err(NoSuchTable)
    else Ok(st.(table := Some(InsertOrIgnore(st.table.value, EntryFor(cfg, name, docPath, kind)))))
  }

  /** One `add_*` call as it reaches `_add`. */
  datatype AddCall = AddCall(name: string, docPath: string, kind: Kind)

  function EntryOf(cfg: Config, c: AddCall): Entry
  {
    EntryFor(cfg, c.name, c.docPath, c.kind)
  }

  /** The store after a sequence of `add_*` calls, and the error that stopped them, if any. */
  datatype AddOutcome = AddOutcome(store: Store, error: Option<StoreError>)

  /** Some call in `calls` asks for row `e`. */
  ghost predicate Requested(cfg: Config, calls: seq<AddCall>, e: Entry)
  {
    exists k :: 0 <= k < |calls| && EntryOf(cfg, calls[k]) == e
  }

  lemma RequestedCons(cfg: Config, calls: seq<AddCall>, e: Entry)
    requires |calls| > 0
    ensures Requested(cfg, calls, e) <==> EntryOf(cfg, calls[0]) == e || Requested(cfg, calls[1..], e)
  {
    if Requested(cfg, calls, e) && EntryOf(cfg, calls[0]) != e {
      var k :| 0 <= k < |calls| && EntryOf(cfg, calls[k]) == e;
      assert calls[1..][k - 1] == calls[k];
    }
    if Requested(cfg, calls[1..], e) {
      var k :| 0 <= k < |calls[1..]| && EntryOf(cfg, calls[1..][k]) == e;
      assert calls[k + 1] == calls[1..][k];
    }
  }

  /** Performs `calls` in order; the first failing insert raises and ends the sequence. */
  function AddAll(cfg: Config, st: Store, calls: seq<AddCall>): (r: AddOutcome)
    ensures Ready(st) ==> r.error.None? && Ready(r.store)
    ensures Ready(st) ==> forall e :: e in Contents(r.store) <==> e in Contents(st) || Requested(cfg, calls, e)
    ensures Ready(st) && Valid(st) ==> Valid(r.store)
    ensures !Ready(st) && |calls| > 0 ==> r.error.Some? && r.store == st
    decreases |calls|
  {
    if |calls| == 0 then AddOutcome(st, None)
    else
      match Insert(cfg, st, calls[0].name, calls[0].docPath, calls[0].kind)
      case Err(e) => AddOutcome(st, Some(e))
      case Ok(st') =>
        var r := AddAll(cfg, st', calls[1..]);
        assert forall e :: Requested(cfg, calls, e) <==> EntryOf(cfg, calls[0]) == e || Requested(cfg, calls[1..], e) by {
          forall e ensures Requested(cfg, calls, e) <==> EntryOf(cfg, calls[0]) == e || Requested(cfg, calls[1..], e) {
            RequestedCons(cfg, calls, e);
          }
        }
        r
  }

  /* ---------------------------------------------------------------------- */
  /* Properties of the lifecycle and of insertion                           */
  /* ---------------------------------------------------------------------- */

  /** Connecting twice is connecting once, and disconnecting twice is disconnecting once. */
  lemma ConnectionIdempotent(st: Store)
    ensures Connect(Connect(st)) == Connect(st)
    ensures Disconnect(Disconnect(st)) == Disconnect(st)
    ensures Disconnect(Connect(st)).table == st.table
  {
  }

  /** `clear` forgets everything: its result does not depend on the prior table or connection. */
  lemma ClearForgetsPrior(a: Store, b: Store)
    ensures Clear(a) == Clear(b)
    ensures Clear(Clear(a)) == Clear(a)
  {
  }

  /** Inserting a triple already in the table leaves the store exactly as it was. */
  lemma InsertPresentIsNoOp(cfg: Config, st: Store, name: string, docPath: string, kind: Kind)
    requires Ready(st)
    requires EntryFor(cfg, name, docPath, kind) in Contents(st)
    ensures Insert(cfg, st, name, docPath, kind) == Ok(st)
  {
  }

  /** Inserting the same triple twice gives the same store as inserting it once. */
  lemma InsertIdempotent(cfg: Config, st: Store, name: string, docPath: string, kind: Kind)
    requires Ready(st)
    ensures Insert(cfg, st, name, docPath, kind).Ok?
    ensures Insert(cfg, Insert(cfg, st, name, docPath, kind).value, name, docPath, kind)
         == Insert(cfg, st, name, docPath, kind)
  {
    var st' := Insert(cfg, st, name, docPath, kind).value;
    InsertPresentIsNoOp(cfg, st', name, docPath, kind);
  }

  /** As a set of triples, the table does not depend on the order of two inserts. */
  lemma InsertCommutes(cfg: Config, st: Store, a: AddCall, b: AddCall)
    requires Ready(st)
    ensures Insert(cfg, st, a.name, a.docPath, a.kind).Ok?
    ensures Insert(cfg, st, b.name, b.docPath, b.kind).Ok?
    ensures var ab := Insert(cfg, Insert(cfg, st, a.name, a.docPath, a.kind).value, b.name, b.docPath, b.kind);
            var ba := Insert(cfg, Insert(cfg, st, b.name, b.docPath, b.kind).value, a.name, a.docPath, a.kind);
            ab.Ok? && ba.Ok? && Contents(ab.value) == Contents(ba.value)
  {
  }
}
