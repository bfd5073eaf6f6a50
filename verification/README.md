# goog-docset index builder, modelled in Dafny

`gendocset.py` builds the search index of a Dash docset for the Closure
JavaScript library. It reads every generated API page. It finds the anchors
of constructors and of public entries and classifies each one as a Class,
Method, Const or Function. It then writes one `(name, type, path)` row per
symbol into the `searchIndex` table of an SQLite file. The table has a unique
index over the row, so a repeated row is silently ignored.

This project models the deterministic core of that script:

- **Patterns** (`patterns.dfy`): the two regular expressions that classify an
  anchor name, `METHOD_PATTERN` and `CONST_PATTERN`. Each is stated
  declaratively as "there is a split point such that …". Each is implemented
  by a recursive scan, and the scan is proved to agree with the statement.
- **ClosureDocs** (`closure_docs.dfy`): first-match-wins classification
  (method, then const, then function), the `.prototype` rewrite of method
  names, the `file#anchor` document paths, the `api/` path format, the class
  and function scans of a page, and the whole run over a list of glob results.
- **DocSet** (`docset.dfy`): the index store. It holds a connection flag and
  the table of the database file. The table is absent in a database file
  this program has never cleared. The model covers `connect`, `clear`, `disconnect`, `__enter__`,
  `__exit__`, and `_add`, whose `INSERT OR IGNORE` runs under the unique
  index. Rows keep insertion order: row `i` has surrogate id `i + 1`. The
  set of rows is the table as the viewer sees it.
- **Text** (`text.dfy`): the character classes `\w` and `[A-Z_]`, and
  Python's `strip()`.

The headline result is `ClosureDocs.RunBuildsIndex`. For ASCII file names
and printable names (see `ClosureDocs.Run` under "## Left out"), no error
escapes a run and the connection is closed. The table has no duplicate row. It
holds exactly the rows emitted for the files among the glob results,
whatever the database file held before.

How the regular expressions are read. `METHOD_PATTERN` is
`(.*\.?\w+)\.prototype\.(\w+)` used with `search`. Group 1 can match exactly
the strings that end in a word character (`Patterns.Group1Shape`). A match
can always start at position 0, because the leading `.*` absorbs any prefix.
The greedy `.*` is tried longest first, so group 1 extends to the rightmost
`.prototype.` that has a word character on each side. The greedy `(\w+)`
then takes the whole run of word characters after it. Anything after that
run is not part of the match and is dropped from the name.
`CONST_PATTERN` is `.*\.[A-Z_]+$`. It holds when a dot is followed by one or
more `[A-Z_]` characters up to the end of the name. `\w` is ASCII
`[A-Za-z0-9_]` because the pattern is compiled without the UNICODE flag.

Three consequences of the code that are easy to miss:

- Group 1 is any text that ends in a word character, not only a dotted
  identifier path. `search` ignores text after the member name, so
  `a.prototype.b.c` is the Method `a.b`.
- A constant needs only a last `.` followed by `[A-Z_]+`, so `.FOO` is a
  Const.
- The bare `except` in `clear` hides every failure of the drop.

## Model

| member | source | states |
|---|---|---|
| Text.Strip | gendocset.py:111 | the class name is the anchor text with every leading and trailing white-space character removed, and none left at its edges |
| Text.StripUnique | gendocset.py:111 | at most one string is the stripped form of a given text, so the declarative description of `strip()` determines its result |
| Text.StripIdempotent | gendocset.py:111 | stripping an already stripped class name changes nothing |
| Patterns.Group1Shape | gendocset.py:101 | the group-1 sub-pattern `.*\.?\w+` accepts exactly the strings whose last character is a word character |
| Patterns.WordRunEnd | gendocset.py:101 | group 2 `(\w+)` is greedy: it ends at the first non-word character or at the end of the name |
| Patterns.LastSplitAtOrBelow | gendocset.py:101 | the scan finds a position where the method pattern can split the name, and no such position above it; it finds none only when there is none |
| Patterns.SearchMethod | gendocset.py:101 | `METHOD_PATTERN.search` succeeds exactly when some split exists; group 1 is the prefix up to the rightmost `.prototype.` and group 2 is the maximal word run after it |
| Patterns.MatchesConst | gendocset.py:102 | the scan for `CONST_PATTERN` succeeds exactly when a dot is followed by one or more `[A-Z_]` up to the end of the name |
| Patterns.ConstRunStart | gendocset.py:102 | the trailing `[A-Z_]` run is maximal: the character before it, if any, is outside the class |
| ClosureDocs.Classify | gendocset.py:115-133 | classifying a public anchor never yields a Class |
| ClosureDocs.ClassifyByPatterns | gendocset.py:120-133 | Method exactly when the method pattern matches; Const exactly when it does not but the const pattern does; Function otherwise; only a Method is renamed, to group 1 + "." + group 2 |
| ClosureDocs.MethodBeatsConst | gendocset.py:123-128 | when both patterns match, the entry is a Method: the const test is never consulted |
| ClosureDocs.RightmostSplitBeforeWord | gendocset.py:101 | in `g1.prototype.g2` with `g2` a word, the split after `g1` is the rightmost one and group 2 is all of `g2` |
| ClosureDocs.MethodDropsPrototype | gendocset.py:123-128 | `g1.prototype.g2` is the Method `g1.g2`, whatever `g1` itself contains |
| ClosureDocs.ConstSuffixIsConst | gendocset.py:129-131 | with no method match, a name ending in `.` and one or more `[A-Z_]` is a Const under its own name |
| ClosureDocs.UpperCaseMemberIsMethod | gendocset.py:101-102 | an upper-case prototype member such as `a.prototype.MAX` matches both patterns and is the Method `a.MAX` |
| ClosureDocs.ExampleMethod | gendocset.py:123-128 | `ns.sub.prototype.go` is the Method `ns.sub.go` |
| ClosureDocs.ExampleConst | gendocset.py:129-131 | `ns.MAX_SIZE` is the Const `ns.MAX_SIZE` |
| ClosureDocs.ExampleFunction | gendocset.py:120-133 | `ns.helper` matches neither pattern and is the Function `ns.helper` |
| ClosureDocs.ClosureConfig | gendocset.py:104-106 | once `ClosureDocs` is constructed, every stored path is `ONLINE_DOC_PATH + "api/" + path` |
| ClosureDocs.SplitFragment | gendocset.py:119 | reading a location back splits it at its first `#` into a `#`-free file part and the fragment |
| ClosureDocs.AnchorPathRoundTrip | gendocset.py:119 | the file name (when it has no `#`) and the anchor are recovered from the `file_name#anchor` location built from them |
| ClosureDocs.FindClasses | gendocset.py:108-113 | one Class call per constructor anchor, named by its stripped text, with the anchor's `href` as its path |
| ClosureDocs.FindFunctions | gendocset.py:115-133 | one call per public anchor, never a Class, located at `file_name#anchor`, with the anchor's classification |
| ClosureDocs.ParseSoup | gendocset.py:135-137 | a page yields one call per constructor anchor plus one per public anchor |
| ClosureDocs.EntryCalls | gendocset.py:142 | a directory among the glob results yields no call |
| ClosureDocs.ParseAll | gendocset.py:139-147 | a listing made only of directories yields no call |
| ClosureDocs.ParseSoupRequests | gendocset.py:108-137 | the calls for one page ask for exactly the rows of its constructor anchors (Class, stripped text, `href`) and of its public anchors (classified, at `file_name#anchor`) |
| ClosureDocs.ParseAllRequests | gendocset.py:139-147 | the calls of a whole parse ask for exactly the rows some file among the glob results emits; directories contribute none |
| ClosureDocs.Run | gendocset.py:150-151 | the `with` block ends without error, with the connection closed and a table without duplicate rows |
| ClosureDocs.RunBuildsIndex | gendocset.py:135-151 | after a run the table holds exactly the rows emitted for the files among the glob results, with no duplicates, whatever the file held before |
| ClosureDocs.RunIgnoresPrior | gendocset.py:58-73 | a run clears the store first, so its result does not depend on the store it started from |
| ClosureDocs.RunIdempotent | gendocset.py:58-73 | running again over the same tree leaves the same store as running once |
| ClosureDocs.RunIgnoresOrder | gendocset.py:140 | two glob listings with the same entries in any order build the same set of rows |
| ClosureDocs.ParseAllSkipsDirectory | gendocset.py:142 | inserting a directory anywhere into the glob results leaves the sequence of calls unchanged |
| ClosureDocs.DirectorySkipped | gendocset.py:142 | inserting a directory anywhere into the glob results leaves the whole run unchanged |
| ClosureDocs.ClassRowsFromConstructors | gendocset.py:108-137 | a page's Class rows come from its constructor anchors and from nothing else |
| DocSet.TypeNameInjective | gendocset.py:78-95 | distinct kinds are stored as distinct `type` texts, so the unique index distinguishes kinds |
| DocSet.FormatDocPath | gendocset.py:49-51 | the path format only prepends: the document path is a suffix of its formatted form |
| DocSet.StoredPath | gendocset.py:83 | the stored path starts with `ONLINE_DOC_PATH` and ends with the document path |
| DocSet.StoredPathInjective | gendocset.py:83 | distinct document paths are stored as distinct paths, so deduplication only merges identical calls |
| DocSet.InsertOrIgnore | gendocset.py:44-46 | `INSERT OR IGNORE` adds the row as a set element, keeps rows unique, leaves the table unchanged when the row is present, and keeps existing rows and ids |
| DocSet.Connect | gendocset.py:53-56 | `connect` opens a connection, keeps the file's table, and does nothing when already connected |
| DocSet.Clear | gendocset.py:58-63 | `clear` leaves a connected store with an empty table, whatever the prior contents |
| DocSet.Disconnect | gendocset.py:65-69 | `disconnect` ends with no connection, keeps the committed table, and does nothing when not connected |
| DocSet.Enter | gendocset.py:71-73 | `__enter__` leaves the store ready and empty before any insert |
| DocSet.Exit | gendocset.py:75-76 | `__exit__` closes the connection and keeps the table |
| DocSet.EntryFor | gendocset.py:80-83 | the row `_add` writes has the given name and type and a path ending in the document path |
| DocSet.Insert | gendocset.py:78-95 | `_add` fails with no connection or no table; otherwise the table gains exactly the formatted row and stays duplicate-free |
| DocSet.AddAll | gendocset.py:78-83 | a sequence of `add_*` calls on a ready store raises nothing and leaves the prior rows plus exactly the rows the calls ask for; on a store not ready the first call raises |
| DocSet.ConnectionIdempotent | gendocset.py:53-69 | connecting twice is connecting once, disconnecting twice is disconnecting once, and neither touches the table |
| DocSet.ClearForgetsPrior | gendocset.py:58-63 | `clear` gives the same store whatever the prior table or connection, and clearing twice is clearing once |
| DocSet.InsertPresentIsNoOp | gendocset.py:44-46 | inserting a row already present leaves the store exactly as it was |
| DocSet.InsertIdempotent | gendocset.py:44-46 | inserting the same row twice gives the same store as inserting it once |
| DocSet.InsertCommutes | gendocset.py:44-46 | as a set of rows, the table does not depend on the order of two inserts |

## Left out

- Parsing HTML and the CSS selectors `div.fn-constructor a` and `.entry.public a[name]` are done by BeautifulSoup, a foreign library. A page is given as the list of constructor anchors (first child text and `href`) and the list of public anchor names it would return.
- ClosureDocs.FindClasses: an anchor whose first child is not text, that has no child, or that has no `href` makes the source raise. Anchors are given already reduced to their text and `href`, so these failures are not modelled.
- SQLite itself is foreign I/O: SQL execution, `commit`, the file path `goog.docset/Contents/Resources/docSet.dsidx` and the `id` column. The table is a sequence of unique rows, and row position stands for the id.
- `glob`, `os.path.isdir`, `open`, `os.path.basename` and the `DOCPATH` pattern are file-system I/O. The glob results are given as a list of entries, each a file (its base name and parsed page) or a directory.
- The `print` progress lines in `_add` and `parse` are diagnostics and are not modelled.
- ClosureDocs.Run: the source is Python 2. At gendocset.py:119, `'%s#%s' % (file_name, full_namespace)` joins a byte-string file name with a unicode anchor name, so a non-ASCII file name raises `UnicodeDecodeError`. At gendocset.py:79, `print` of a non-ASCII name raises `UnicodeEncodeError` when standard output cannot encode it, before the insert. The model's strings carry no encoding, so its promise that no error escapes holds only for ASCII file names and names the output can print.
- `USE_ONLINE_DOCS` is a boolean parameter of the run rather than a module-level constant.
- ClosureDocs.ClassifyByPatterns: Python's `.` does not match a newline, and `$` also matches before a final newline. The model treats a newline like any other character, so names containing one are not modelled faithfully. Anchor names are assumed to be single-line.
- DocSet.Clear: the bare `except` around the drop also hides failures other than a missing table. The model assumes the drop always leaves no table behind.
- An existing database file is assumed to have been written by this program, so its `searchIndex` table already has the unique index.
- The Makefile and the packaging and setup steps in the module docstring are not part of the core.
