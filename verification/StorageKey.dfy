/** Storage keys: how they are built from safe segments, why different files get different keys, and
    how a key is resolved inside the local storage root. */
module StorageKey {
  import opened Wrappers

  // ---------------------------------------------------------------------------------
  // Segments and slashes

  predicate AlphaNumeric(c: char) {
    'A' <= c <= 'Z' || 'a' <= c <= 'z' || '0' <= c <= '9'
  }

  predicate SafeChar(c: char) {
    AlphaNumeric(c) || c == '.' || c == '_' || c == '-'
  }

  /** A letter or digit, then at most 127 letters, digits, dots, underscores and hyphens. */
  predicate SafeSegment(s: string) {
    1 <= |s| <= 128 && AlphaNumeric(s[0]) && forall i :: 0 <= i < |s| ==> SafeChar(s[i])
  }

  function Join(parts: seq<string>): string {
    if parts == [] then "" else if |parts| == 1 then parts[0] else parts[0] + "/" + Join(parts[1..])
  }

  /** The pieces between slashes, empty ones included. */
  function Split(s: string): (r: seq<string>)
    ensures r != []
  {
    if s == "" then [""]
    else if s[0] == '/' then [""] + Split(s[1..])
    else
      var r := Split(s[1..]);
      [[s[0]] + r[0]] + r[1..]
  }

  predicate NoSlash(s: string) {
    forall i :: 0 <= i < |s| ==> s[i] != '/'
  }

  lemma {:induction false} SplitOne(p: string, s: string)
    requires NoSlash(p)
    ensures Split(p) == [p] && Split(p + "/" + s) == [p] + Split(s)
  {
    if p == "" {
      assert p + "/" + s == "/" + s && ("/" + s)[1..] == s;
    } else {
      SplitOne(p[1..], s);
      assert p == [p[0]] + p[1..];
      assert (p + "/" + s)[1..] == p[1..] + "/" + s;
    }
  }

  /** Splitting undoes joining. */
  lemma {:induction false} SplitJoin(parts: seq<string>)
    requires parts != [] && forall p <- parts :: NoSlash(p)
    ensures Split(Join(parts)) == parts
  {
    if |parts| == 1 {
      SplitOne(parts[0], "");
    } else {
      SplitJoin(parts[1..]);
      SplitOne(parts[0], Join(parts[1..]));
    }
  }

  // ---------------------------------------------------------------------------------
  // Building a key

  datatype Context = Context(namespace: string, tenantId: string, subTenantId: Option<string>)

  datatype Options = Options(folder: Option<string>, fieldname: Option<string>)

  /** Lower case as far as the table goes: besides the letters A to Z, only the Kelvin sign becomes an
      ASCII letter. */
  function Lower(s: string): string {
    if s == "" then "" else [LowerChar(s[0])] + Lower(s[1..])
  }

  function LowerChar(c: char): char {
    if 'A' <= c <= 'Z' then ('a' as int + c as int - 'A' as int) as char
    else if c == '\U{212A}' then 'k'
    else c
  }

  function TrimStart(s: string): string {
    if s != "" && White(s[0]) then TrimStart(s[1..]) else s
  }

  function TrimEnd(s: string): string {
    if s != "" && White(s[|s| - 1]) then TrimEnd(s[..|s| - 1]) else s
  }

  /** What the look-up of a MIME type gives once it is lower-cased and trimmed. */
  function ExtFor(mime: string): (r: Option<string>)
    ensures r.Some? ==> IsExt(r.value) || IsOdd(r.value)
  {
    TableExtFor(Normal(mime))
  }

  function Normal(mime: string): string {
    TrimEnd(TrimStart(Lower(mime)))
  }

  /** The name of a member that every object inherits. */
  predicate Inherited(name: string) {
    name == "constructor" || name == "__proto__"
  }

  // The table is an ordinary object, so the look-up also finds the two members with lower-case names
  // that every object inherits, and their text ends up in the key.
  const FUNCTION_TEXT := "function Object() { [native code] }"
  const OBJECT_TEXT := "[object Object]"

  predicate IsOdd(e: string) {
    e == FUNCTION_TEXT || e == OBJECT_TEXT
  }

  function TableExtFor(mime: string): (r: Option<string>)
    ensures r.Some? ==> IsExt(r.value) || IsOdd(r.value)
  {
    if mime == "constructor" then Some(FUNCTION_TEXT)
    else if mime == "__proto__" then Some(OBJECT_TEXT)
    else ImageExtFor(mime)
  }

  function ImageExtFor(mime: string): (r: Option<string>)
    ensures r.Some? ==> IsExt(r.value)
  {
    if mime == "image/jpeg" || mime == "image/jpg" then Some(".jpg")
    else if mime == "image/png" then Some(".png")
    else if mime == "image/webp" then Some(".webp")
    else if mime == "image/gif" then Some(".gif")
    else if mime == "image/bmp" then Some(".bmp")
    else if mime == "image/tiff" then Some(".tiff")
    else if mime == "image/svg+xml" then Some(".svg")
    else if mime == "application/pdf" then Some(".pdf")
    else OfficeExtFor(mime)
  }

  function OfficeExtFor(mime: string): (r: Option<string>)
    ensures r.Some? ==> IsExt(r.value)
  {
    if mime == "application/msword" then Some(".doc")
    else if mime == "application/vnd.ms-excel" then Some(".xls")
    else if mime == "application/vnd.ms-powerpoint" then Some(".ppt")
    else if mime == "application/vnd.oasis.opendocument.spreadsheet" then Some(".ods")
    else if mime == OPEN_XML + "wordprocessingml.document" then Some(".docx")
    else if mime == OPEN_XML + "spreadsheetml.sheet" then Some(".xlsx")
    else if mime == OPEN_XML + "presentationml.presentation" then Some(".pptx")
    else OtherExtFor(mime)
  }

  const OPEN_XML := "application/vnd.openxmlformats-officedocument."

  function OtherExtFor(mime: string): (r: Option<string>)
    ensures r.Some? ==> IsExt(r.value)
  {
    if mime == "text/plain" then Some(".txt")
    else if mime == "text/csv" then Some(".csv")
    else if mime == "text/x-log" then Some(".log")
    else if mime == "application/json" then Some(".json")
    else if mime == "application/x-ndjson" then Some(".jsonl")
    else if mime == "application/zip" then Some(".zip")
    else if mime == "application/octet-stream" then Some(".bin")
    else if mime == "application/x-encrypted" then Some(".enc")
    else if mime == "application/gzip" then Some(".gz")
    else if mime == "application/x-parquet" then Some(".parquet")
    else if mime == "audio/mpeg" then Some(".mp3")
    else if mime == "audio/wav" then Some(".wav")
    else if mime == "audio/ogg" then Some(".ogg")
    else if mime == "audio/mp4" || mime == "audio/x-m4a" then Some(".m4a")
    else if mime == "video/mp4" then Some(".mp4")
    else if mime == "video/webm" then Some(".webm")
    else if mime == "video/quicktime" then Some(".mov")
    else if mime == "video/x-matroska" then Some(".mkv")
    else None
  }

  /** A dot and then only letters and digits. */
  predicate IsExt(e: string) {
    2 <= |e| <= 8 && e[0] == '.' && forall i :: 1 <= i < |e| ==> AlphaNumeric(e[i])
  }

  /** The characters that trimming removes. */
  predicate White(c: char) {
    || '\U{9}' <= c <= '\U{D}' || c == ' ' || c == '\U{A0}' || c == '\U{1680}' || '\U{2000}' <= c <= '\U{200A}'
    || c == '\U{2028}' || c == '\U{2029}' || c == '\U{202F}' || c == '\U{205F}' || c == '\U{3000}' || c == '\U{FEFF}'
  }

  predicate Blank(s: Option<string>) {
    s.None? || forall i :: 0 <= i < |s.value| ==> White(s.value[i])
  }

  function Slashed(s: string): string {
    if s == "" then "" else [if s[0] == '\\' then '/' else s[0]] + Slashed(s[1..])
  }

  function NonEmpty(parts: seq<string>): seq<string> {
    if parts == [] then []
    else NonEmpty(parts[..|parts| - 1]) + if parts[|parts| - 1] == "" then [] else [parts[|parts| - 1]]
  }

  /** The levels of a folder, separated by runs of slashes or backslashes. */
  function Levels(folder: Option<string>): seq<string> {
    if Blank(folder) then [] else NonEmpty(Split(Slashed(folder.value)))
  }

  predicate AllSafe(parts: seq<string>) {
    forall p <- parts :: SafeSegment(p)
  }

  function Extras(o: Options): seq<string> {
    Levels(o.folder) + if Blank(o.fieldname) then [] else [o.fieldname.value]
  }

  function Digit(n: nat): char
    requires n < 10
  {
    '0' + n as char
  }

  function Decimal(n: nat): string {
    if n < 10 then [Digit(n)] else Decimal(n / 10) + [Digit(n % 10)]
  }

  predicate Legacy(namespace: string) {
    namespace == "esma-tenant" || namespace == "esma-admin" || namespace == "generic"
  }

  /** The segments before the file name, or none where a validation fails. */
  function Directory(ctx: Context, o: Options, year: nat, month: nat): Option<seq<string>>
    requires 1 <= month <= 12
  {
    if !AllSafe(Extras(o)) then None
    else if !Legacy(ctx.namespace) then
      if SafeSegment(ctx.tenantId) && SafeSegment(ctx.namespace)
      then Some([ctx.tenantId, ctx.namespace, Decimal(year), (if month < 10 then "0" else "") + Decimal(month)])
      else None
    else if ctx.namespace == "esma-admin" || ctx.tenantId == "system" then Some(["system"] + Extras(o))
    else if !SafeSegment(ctx.tenantId) then None
    else if Blank(ctx.subTenantId) then Some(["tenants", ctx.tenantId] + Extras(o))
    else if !SafeSegment(ctx.subTenantId.value) then None
    else Some(["tenants", ctx.tenantId, "branches", ctx.subTenantId.value] + Extras(o))
  }

  /** The segments of the key of a file. */
  function Parts(ctx: Context, o: Options, fileId: string, mime: string, year: nat, month: nat): Option<seq<string>>
    requires 1 <= month <= 12
  {
    var dir, ext := Directory(ctx, o, year, month), ExtFor(mime);
    if SafeSegment(fileId) && ext.Some? && dir.Some? then Some(dir.value + [fileId + ext.value]) else None
  }

  // ---------------------------------------------------------------------------------
  // Safe segments

  lemma {:induction false} DecimalSafe(n: nat, width: nat)
    requires n < Limit(width) && width >= 1
    ensures 1 <= |Decimal(n)| <= width && forall i :: 0 <= i < |Decimal(n)| ==> '0' <= Decimal(n)[i] <= '9'
  {
    if n >= 10 {
      assert width > 1;
      DecimalSafe(n / 10, width - 1);
    }
  }

  function Limit(width: nat): nat {
    if width == 0 then 1 else 10 * Limit(width - 1)
  }

  /** The latest year a date can have. */
  const LAST_YEAR := 275760

  lemma DateSafe(year: nat, month: nat)
    requires year <= LAST_YEAR && 1 <= month <= 12
    ensures SafeSegment(Decimal(year)) && SafeSegment((if month < 10 then "0" else "") + Decimal(month))
  {
    assert Limit(1) == 10 && Limit(2) == 100;
    assert Limit(4) == 10000;
    assert Limit(6) == 1000000;
    DecimalSafe(year, 6);
    DecimalSafe(month, 2);
  }

  lemma DirectorySafe(ctx: Context, o: Options, year: nat, month: nat)
    requires year <= LAST_YEAR && 1 <= month <= 12 && Directory(ctx, o, year, month).Some?
    ensures AllSafe(Directory(ctx, o, year, month).value)
  {
    DateSafe(year, month);
    assert SafeSegment("system") && SafeSegment("tenants") && SafeSegment("branches");
  }

  predicate PlainChar(c: char) {
    c != '/' && c != '\\' && c != ':' && c != '\0'
  }

  /** A segment that stands for itself in every path: it starts with a letter or digit and has no
      separator, colon or null character. */
  predicate Plain(p: string) {
    p != "" && AlphaNumeric(p[0]) && forall i :: 0 <= i < |p| ==> PlainChar(p[i])
  }

  lemma OddIsPlain(e: string)
    requires IsOdd(e)
    ensures forall i :: 0 <= i < |e| ==> PlainChar(e[i])
    ensures !SafeChar(e[|e| - 1])
  {
  }

  lemma PlainName(fileId: string, ext: string)
    requires SafeSegment(fileId) && (IsExt(ext) || IsOdd(ext))
    ensures Plain(fileId + ext) && (SafeSegment(fileId + ext) <==> IsExt(ext) && |fileId| + |ext| <= 128)
  {
    var name := fileId + ext;
    assert name[0] == fileId[0];
    if IsExt(ext) {
      assert forall i :: 0 <= i < |name| ==> SafeChar(name[i]);
    } else {
      OddIsPlain(ext);
      assert name[|name| - 1] == ext[|ext| - 1];
    }
  }

  lemma PlainSegments(dir: seq<string>, name: string, parts: seq<string>, key: string)
    requires AllSafe(dir) && Plain(name) && parts == dir + [name] && key == Join(parts)
    ensures Split(key) == parts && (AllSafe(Split(key)) <==> SafeSegment(name)) && forall p <- parts :: Plain(p)
  {
    forall p | p in parts ensures NoSlash(p) { }
    SplitJoin(parts);
    assert parts[|dir|] == name && name in parts;
  }

  lemma OddExactly(mime: string)
    requires ExtFor(mime).Some?
    ensures IsExt(ExtFor(mime).value) <==> !Inherited(Normal(mime))
  {
    if Inherited(Normal(mime)) { OddIsPlain(ExtFor(mime).value); }
  }

  /** What a built key consists of: safe segments, then the file name, which is one exactly when the
      MIME type is not the name of an inherited member and id and extension have at most 128 characters
      together. */
  lemma KeySegments(ctx: Context, o: Options, fileId: string, mime: string, year: nat, month: nat,
                    parts: seq<string>, key: string)
    requires year <= LAST_YEAR && 1 <= month <= 12
    requires Parts(ctx, o, fileId, mime, year, month) == Some(parts) && key == Join(parts)
    ensures Split(key) == parts && parts != [] && forall p <- parts :: Plain(p)
    ensures AllSafe(Split(key)) <==> !Inherited(Normal(mime)) && |fileId| + |ExtFor(mime).value| <= 128
  {
    OddExactly(mime);
    DirectorySafe(ctx, o, year, month);
    PlainName(fileId, ExtFor(mime).value);
    PlainSegments(Directory(ctx, o, year, month).value, fileId + ExtFor(mime).value, parts, key);
  }

  // ---------------------------------------------------------------------------------
  // Different files, different keys

  function CutAtLastDot(s: string): string {
    if s == "" then "" else if s[|s| - 1] == '.' then s[..|s| - 1] else CutAtLastDot(s[..|s| - 1])
  }

  /** The name without its extension. */
  function Stem(name: string): string {
    if EndsWith(name, FUNCTION_TEXT) then name[..|name| - |FUNCTION_TEXT|]
    else if EndsWith(name, OBJECT_TEXT) then name[..|name| - |OBJECT_TEXT|]
    else CutAtLastDot(name)
  }

  predicate EndsWith(s: string, t: string) {
    |t| <= |s| && s[|s| - |t|..] == t
  }

  /** Reads the file id back from a key. */
  function FileIdOf(key: string): string {
    Stem(Split(key)[|Split(key)| - 1])
  }

  lemma {:induction false} CutExtension(id: string, e: string)
    requires 1 <= |e| && e[0] == '.' && forall i :: 1 <= i < |e| ==> AlphaNumeric(e[i])
    ensures CutAtLastDot(id + e) == id
    decreases |e|
  {
    var s, n := id + e, |e| - 1;
    if n == 0 {
      assert s[..|s| - 1] == id;
    } else {
      assert s[..|s| - 1] == id + e[..n];
      CutExtension(id, e[..n]);
    }
  }

  lemma StemOf(id: string, e: string)
    requires IsExt(e) || IsOdd(e)
    ensures Stem(id + e) == id
  {
    var name := id + e;
    var last := name[|name| - 1];
    assert last == e[|e| - 1];
    assert FUNCTION_TEXT[|FUNCTION_TEXT| - 1] == '}' && OBJECT_TEXT[|OBJECT_TEXT| - 1] == ']';
    assert EndsWith(name, FUNCTION_TEXT) ==> last == '}';
    assert EndsWith(name, OBJECT_TEXT) ==> last == ']';
    if IsExt(e) {
      CutExtension(id, e);
    } else {
      assert name[|name| - |e|..] == e && name[..|name| - |e|] == id;
    }
  }

  lemma {:induction false} LowerAlready(s: string)
    requires forall i :: 0 <= i < |s| ==> LowerChar(s[i]) == s[i]
    ensures Lower(s) == s
  {
    if s != "" {
      LowerAlready(s[1..]);
      assert s == [s[0]] + s[1..];
    }
  }

  lemma NormalAlready(s: string)
    requires s != "" && !White(s[0]) && !White(s[|s| - 1])
    requires forall i :: 0 <= i < |s| ==> LowerChar(s[i]) == s[i]
    ensures Normal(s) == s
  {
    LowerAlready(s);
  }

  /** The key of a file at the top level. */
  lemma TopLevelUnsafe(fileId: string, mime: string, year: nat, month: nat, parts: seq<string>)
    requires SafeSegment(fileId) && ExtFor(mime).Some? && year <= LAST_YEAR && 1 <= month <= 12
    requires Inherited(Normal(mime)) || |fileId| + |ExtFor(mime).value| > 128
    requires parts == ["system", fileId + ExtFor(mime).value]
    ensures var ctx, o := Context("esma-admin", "system", None), Options(None, None);
      Parts(ctx, o, fileId, mime, year, month) == Some(parts) && !AllSafe(Split(Join(parts)))
  {
    var ctx, o := Context("esma-admin", "system", None), Options(None, None);
    assert ["system"] + Extras(o) == ["system"] && ["system"] + [parts[1]] == parts;
    KeySegments(ctx, o, fileId, mime, year, month, parts, Join(parts));
  }

  /** A file whose MIME type names an inherited member gets a key with an unsafe name. */
  lemma InheritedNameUnsafe(fileId: string, year: nat, month: nat) returns (parts: seq<string>)
    requires SafeSegment(fileId) && year <= LAST_YEAR && 1 <= month <= 12
    ensures var ctx, o := Context("esma-admin", "system", None), Options(None, None);
      Parts(ctx, o, fileId, "constructor", year, month) == Some(parts) && !AllSafe(Split(Join(parts)))
  {
    var mime := "constructor";
    NormalAlready(mime);
    parts := ["system", fileId + ExtFor(mime).value];
    TopLevelUnsafe(fileId, mime, year, month, parts);
  }

  /** So does a file of any MIME type whose id leaves no room for the extension. */
  lemma LongNameUnsafe(fileId: string, mime: string, year: nat, month: nat) returns (parts: seq<string>)
    requires SafeSegment(fileId) && |fileId| == 128 && ExtFor(mime).Some? && year <= LAST_YEAR && 1 <= month <= 12
    ensures var ctx, o := Context("esma-admin", "system", None), Options(None, None);
      Parts(ctx, o, fileId, mime, year, month) == Some(parts) && !AllSafe(Split(Join(parts)))
  {
    parts := ["system", fileId + ExtFor(mime).value];
    TopLevelUnsafe(fileId, mime, year, month, parts);
  }

  /** The id of a file can be read back from its key. */
  lemma FileIdRecovered(ctx: Context, o: Options, fileId: string, mime: string, year: nat, month: nat,
                        parts: seq<string>, key: string)
    requires year <= LAST_YEAR && 1 <= month <= 12
    requires Parts(ctx, o, fileId, mime, year, month) == Some(parts) && key == Join(parts)
    ensures FileIdOf(key) == fileId
  {
    KeySegments(ctx, o, fileId, mime, year, month, parts, key);
    assert Split(key)[|Split(key)| - 1] == fileId + ExtFor(mime).value;
    StemOf(fileId, ExtFor(mime).value);
  }

  // ---------------------------------------------------------------------------------
  // Tenants and branches

  /** Which tenant a context stands for; none for the system scope, which tenants share. */
  function Tenant(ctx: Context): Option<string> {
    if Legacy(ctx.namespace) && (ctx.namespace == "esma-admin" || ctx.tenantId == "system") then None
    else Some(ctx.tenantId)
  }

  /** Which branch of it; only the legacy layout has branches. */
  function Branch(ctx: Context): Option<string> {
    if !Legacy(ctx.namespace) || Tenant(ctx).None? || Blank(ctx.subTenantId) then None else ctx.subTenantId
  }

  /** Reads the tenant back from a key. */
  function TenantOf(key: string): Option<string> {
    var p := Split(key);
    if p[0] == "system" then None else if p[0] == "tenants" && |p| >= 2 then Some(p[1]) else Some(p[0])
  }

  /** Reads the branch back from a key. */
  function BranchOf(key: string): Option<string> {
    var p := Split(key);
    if |p| >= 5 && p[0] == "tenants" && p[2] == "branches" then Some(p[3]) else None
  }

  /** The tenant is not mistaken for the first segment of the legacy layout. */
  predicate TenantClear(ctx: Context) {
    || Legacy(ctx.namespace)
    || (ctx.tenantId != "system" && (ctx.tenantId != "tenants" || ctx.namespace == "tenants"))
  }

  /** The folder of a file without a branch does not look like one. */
  predicate BranchClear(ctx: Context, o: Options) {
    !(Legacy(ctx.namespace) && Tenant(ctx).Some? && Branch(ctx).None? && |Extras(o)| >= 2 && Extras(o)[0] == "branches")
  }

  /** The tenant can be read back from a key if and only if it is not mistaken for the first segment of the
      legacy layout. */
  lemma TenantRecoveredExactly(ctx: Context, o: Options, fileId: string, mime: string, year: nat, month: nat,
                               parts: seq<string>, key: string)
    requires year <= LAST_YEAR && 1 <= month <= 12
    requires Parts(ctx, o, fileId, mime, year, month) == Some(parts) && key == Join(parts)
    ensures TenantOf(key) == Tenant(ctx) <==> TenantClear(ctx)
  {
    KeySegments(ctx, o, fileId, mime, year, month, parts, key);
    assert Legacy("esma-tenant");
  }

  /** The branch can be read back if and only if the folder of a file without a branch does not look like
      one. */
  lemma BranchRecoveredExactly(ctx: Context, o: Options, fileId: string, mime: string, year: nat, month: nat,
                               parts: seq<string>, key: string)
    requires year <= LAST_YEAR && 1 <= month <= 12
    requires Parts(ctx, o, fileId, mime, year, month) == Some(parts) && key == Join(parts)
    ensures BranchOf(key) == Branch(ctx) <==> BranchClear(ctx, o)
  {
    KeySegments(ctx, o, fileId, mime, year, month, parts, key);
    if !Legacy(ctx.namespace) { DateSafe(year, month); YearIsNoName(year); }
  }

  lemma YearIsNoName(year: nat)
    requires year <= LAST_YEAR
    ensures Decimal(year) != "branches"
  {
    assert Limit(4) == 10000;
    assert Limit(6) == 1000000;
    DecimalSafe(year, 6);
    assert "branches"[0] == 'b';
  }

  /** So files of different tenants, or of different branches of a tenant, never share a key where neither
      looks like something else. */
  lemma TenantsApart(ctx: Context, o: Options, id: string, mime: string, year: nat, month: nat, p: seq<string>,
                     ctx': Context, o': Options, id': string, mime': string, year': nat, month': nat, p': seq<string>)
    requires year <= LAST_YEAR && 1 <= month <= 12 && year' <= LAST_YEAR && 1 <= month' <= 12
    requires Parts(ctx, o, id, mime, year, month) == Some(p) && Parts(ctx', o', id', mime', year', month') == Some(p')
    requires TenantClear(ctx) && BranchClear(ctx, o) && TenantClear(ctx') && BranchClear(ctx', o')
    requires Tenant(ctx) != Tenant(ctx') || Branch(ctx) != Branch(ctx')
    ensures Join(p) != Join(p')
  {
    TenantRecoveredExactly(ctx, o, id, mime, year, month, p, Join(p));
    TenantRecoveredExactly(ctx', o', id', mime', year', month', p', Join(p'));
    BranchRecoveredExactly(ctx, o, id, mime, year, month, p, Join(p));
    BranchRecoveredExactly(ctx', o', id', mime', year', month', p', Join(p'));
  }

  lemma {:induction false} SlashedAlready(s: string)
    requires forall i :: 0 <= i < |s| ==> s[i] != '\\'
    ensures Slashed(s) == s
  {
    if s != "" {
      SlashedAlready(s[1..]);
      assert s == [s[0]] + s[1..];
    }
  }

  /** A tenant called "tenants" is read back as its namespace. */
  lemma TenantMistaken(namespace: string, fileId: string, mime: string, year: nat, month: nat, parts: seq<string>)
    requires !Legacy(namespace) && namespace != "tenants" && year <= LAST_YEAR && 1 <= month <= 12
    requires Parts(Context(namespace, "tenants", None), Options(None, None), fileId, mime, year, month) == Some(parts)
    ensures TenantOf(Join(parts)) == Some(namespace)
  {
    var ctx := Context(namespace, "tenants", None);
    DatedLayout(ctx, Options(None, None), fileId, mime, year, month, parts, Join(parts));
  }

  /** The value of a decimal number. */
  function Value(s: string): int {
    if s == "" then 0 else 10 * Value(s[..|s| - 1]) + (s[|s| - 1] as int - '0' as int)
  }

  lemma {:induction false} ValueOfDecimal(n: nat)
    ensures Value(Decimal(n)) == n
  {
    if n < 10 {
      assert Value([]) == 0 && Decimal(n)[..0] == [];
    } else {
      ValueOfDecimal(n / 10);
      assert Decimal(n)[..|Decimal(n)| - 1] == Decimal(n / 10);
    }
  }

  /** The layout of keys outside the legacy namespaces: tenant, namespace, year, month in two digits, name. */
  lemma DatedLayout(ctx: Context, o: Options, fileId: string, mime: string, year: nat, month: nat,
                    parts: seq<string>, key: string)
    requires year <= LAST_YEAR && 1 <= month <= 12 && !Legacy(ctx.namespace)
    requires Parts(ctx, o, fileId, mime, year, month) == Some(parts) && key == Join(parts)
    ensures |Split(key)| == 5 && Split(key)[0] == ctx.tenantId && Split(key)[1] == ctx.namespace
    ensures Value(Split(key)[2]) == year && Value(Split(key)[3]) == month && |Split(key)[3]| == 2
  {
    KeySegments(ctx, o, fileId, mime, year, month, parts, key);
    ValueOfDecimal(year);
    ValueOfDecimal(month);
    TwoDigits(month);
  }

  lemma TwoDigits(month: nat)
    requires 1 <= month <= 12
    ensures var s := (if month < 10 then "0" else "") + Decimal(month); |s| == 2 && Value(s) == month
  {
    ValueOfDecimal(month);
    var s := (if month < 10 then "0" else "") + Decimal(month);
    if month < 10 {
      assert s[..1] == "0" && Value("0") == 0;
    } else {
      assert Decimal(month / 10) == [Digit(month / 10)];
    }
  }

  lemma {:induction false} NothingEmpty(parts: seq<string>)
    requires "" !in parts
    ensures NonEmpty(parts) == parts
  {
    if parts != [] {
      assert parts[|parts| - 1] in parts;
      NothingEmpty(parts[..|parts| - 1]);
      assert parts == parts[..|parts| - 1] + [parts[|parts| - 1]];
    }
  }

  lemma {:induction false} JoinedPlainly(parts: seq<string>)
    requires AllSafe(parts)
    ensures forall i :: 0 <= i < |Join(parts)| ==> Join(parts)[i] != '\\' && !White(Join(parts)[i])
    ensures parts != [] ==> Join(parts) != ""
  {
    if parts != [] {
      JoinedPlainly(parts[1..]);
      assert SafeSegment(parts[0]) && forall i :: 0 <= i < |parts[0]| ==> SafeChar(parts[0][i]);
    }
  }

  lemma LevelsFound(levels: seq<string>, folder: string)
    requires levels != [] && AllSafe(levels) && folder == Join(levels)
    ensures Levels(Some(folder)) == levels
  {
    JoinedPlainly(levels);
    SlashedAlready(folder);
    assert forall p <- levels :: NoSlash(p) by {
      forall p | p in levels ensures NoSlash(p) { assert SafeSegment(p); }
    }
    SplitJoin(levels);
    assert "" !in levels by { assert !SafeSegment(""); }
    NothingEmpty(levels);
    assert !White(folder[0]);
  }

  /** The levels of a folder, joined with slashes, are found again, and a field name comes after them. */
  lemma FolderRecovered(levels: seq<string>, folder: string, field: string)
    requires levels != [] && AllSafe(levels) && folder == Join(levels) && SafeSegment(field)
    ensures Extras(Options(Some(folder), None)) == levels
    ensures Extras(Options(Some(folder), Some(field))) == levels + [field]
  {
    LevelsFound(levels, folder);
    assert !White(field[0]);
  }

  lemma SharedDirectory(t: string, branch: string, o: Options, year: nat, month: nat)
    requires SafeSegment(t) && t != "system" && SafeSegment(branch) && 1 <= month <= 12
    requires Extras(o) == ["branches", branch]
    ensures var top, below := Context("esma-tenant", t, None), Context("esma-tenant", t, Some(branch));
      Directory(top, o, year, month) == Directory(below, Options(None, None), year, month)
  {
    assert SafeSegment("branches") && !White(branch[0]);
    assert Extras(Options(None, None)) == [];
    assert ["tenants", t] + ["branches", branch] == ["tenants", t, "branches", branch];
    assert ["tenants", t, "branches", branch] + [] == ["tenants", t, "branches", branch];
  }

  lemma BranchFolder(branch: string, o: Options)
    requires SafeSegment(branch) && o == Options(Some("branches"), Some(branch))
    ensures Extras(o) == ["branches", branch]
  {
    assert SafeSegment("branches") && AllSafe(["branches"]);
    FolderRecovered(["branches"], "branches", branch);
    assert ["branches"] + [branch] == ["branches", branch];
  }

  /** A file of the tenant in the folder "branches" with the field name of a branch, and a file of that
      branch: with the same id they have the same key. */
  lemma BranchShared(t: string, branch: string, fileId: string, mime: string, year: nat, month: nat,
                     top: Context, below: Context, o: Options)
    requires SafeSegment(t) && t != "system" && SafeSegment(branch) && 1 <= month <= 12
    requires top == Context("esma-tenant", t, None) && below == Context("esma-tenant", t, Some(branch))
    requires o == Options(Some("branches"), Some(branch))
    ensures Branch(top) == None && Branch(below) == Some(branch)
    ensures Parts(top, o, fileId, mime, year, month) == Parts(below, Options(None, None), fileId, mime, year, month)
  {
    assert !White(branch[0]);
    BranchFolder(branch, o);
    SharedDirectory(t, branch, o, year, month);
    SameParts(top, o, below, Options(None, None), fileId, mime, year, month);
  }

  lemma SameParts(ctx: Context, o: Options, ctx': Context, o': Options,
                  fileId: string, mime: string, year: nat, month: nat)
    requires 1 <= month <= 12 && Directory(ctx, o, year, month) == Directory(ctx', o', year, month)
    ensures Parts(ctx, o, fileId, mime, year, month) == Parts(ctx', o', fileId, mime, year, month)
  {
  }

  /** The directory of a legacy key: folder levels and field name come after the scope. */
  function LegacyDirectory(ctx: Context, extras: seq<string>): seq<string> {
    if Tenant(ctx).None? then ["system"] + extras
    else if Branch(ctx).None? then ["tenants", ctx.tenantId] + extras
    else ["tenants", ctx.tenantId, "branches", Branch(ctx).value] + extras
  }

  lemma LegacyLayout(ctx: Context, o: Options, fileId: string, mime: string, year: nat, month: nat,
                     parts: seq<string>, key: string)
    requires year <= LAST_YEAR && 1 <= month <= 12 && Legacy(ctx.namespace)
    requires Parts(ctx, o, fileId, mime, year, month) == Some(parts) && key == Join(parts)
    ensures Split(key)[..|Split(key)| - 1] == LegacyDirectory(ctx, Extras(o))
  {
    KeySegments(ctx, o, fileId, mime, year, month, parts, key);
    assert Directory(ctx, o, year, month) == Some(LegacyDirectory(ctx, Extras(o)));
    assert parts[..|parts| - 1] == Directory(ctx, o, year, month).value;
  }

  // ---------------------------------------------------------------------------------
  // The builder

  function KeyOf(ctx: Context, o: Options, fileId: string, mime: string, year: nat, month: nat): Option<string>
    requires 1 <= month <= 12
  {
    var parts := Parts(ctx, o, fileId, mime, year, month);
    if parts.Some? then Some(Join(parts.value)) else None
  }

  /** Keys of different files differ, whatever else they are built from. */
  lemma KeysDiffer(ctx: Context, o: Options, id: string, mime: string, year: nat, month: nat,
                   ctx': Context, o': Options, id': string, mime': string, year': nat, month': nat)
    requires year <= LAST_YEAR && 1 <= month <= 12 && year' <= LAST_YEAR && 1 <= month' <= 12
    requires KeyOf(ctx, o, id, mime, year, month).Some? && KeyOf(ctx', o', id', mime', year', month').Some? && id != id'
    ensures KeyOf(ctx, o, id, mime, year, month) != KeyOf(ctx', o', id', mime', year', month')
  {
    var p, p' := Parts(ctx, o, id, mime, year, month).value, Parts(ctx', o', id', mime', year', month').value;
    FileIdRecovered(ctx, o, id, mime, year, month, p, Join(p));
    FileIdRecovered(ctx', o', id', mime', year', month', p', Join(p'));
  }

  /** Builds the key, or fails in the first validation that does not hold. */
  method Build(ctx: Context, o: Options, fileId: string, mime: string, year: nat, month: nat)
    returns (r: Option<string>)
    requires 1 <= month <= 12
    ensures r == KeyOf(ctx, o, fileId, mime, year, month)
  {
    var ext := ExtFor(mime);
    if !SafeSegment(fileId) || ext.None? {
      return None;
    }
    var name := fileId + ext.value;
    var raw := Levels(o.folder);
    var extras: seq<string>, i := [], 0;
    while i < |raw|
      invariant i <= |raw| && extras == raw[..i] && AllSafe(raw[..i])
    {
      if !SafeSegment(raw[i]) {
        assert raw[i] in Extras(o);
        return None;
      }
      extras := extras + [raw[i]];
      i := i + 1;
    }
    if !Blank(o.fieldname) {
      if !SafeSegment(o.fieldname.value) {
        assert o.fieldname.value in Extras(o);
        return None;
      }
      extras := extras + [o.fieldname.value];
    }
    assert extras == Extras(o);
    if !Legacy(ctx.namespace) {
      if !SafeSegment(ctx.tenantId) || !SafeSegment(ctx.namespace) {
        return None;
      }
      var mm := (if month < 10 then "0" else "") + Decimal(month);
      return Some(Join([ctx.tenantId, ctx.namespace, Decimal(year), mm] + [name]));
    }
    if ctx.namespace == "esma-admin" || ctx.tenantId == "system" {
      return Some(Join(["system"] + extras + [name]));
    }
    if !SafeSegment(ctx.tenantId) {
      return None;
    }
    if !Blank(ctx.subTenantId) {
      if !SafeSegment(ctx.subTenantId.value) {
        return None;
      }
      return Some(Join(["tenants", ctx.tenantId, "branches", ctx.subTenantId.value] + extras + [name]));
    }
    return Some(Join(["tenants", ctx.tenantId] + extras + [name]));
  }
}
