// The wire: JSON text as bytes, the batch envelope, and the byte budgets derived from it.
module Wire {
  import opened RequestIds

  type byte = x: int | 0 <= x < 256 witness 0

  datatype Json =
    | Null
    | Bool(b: bool)
    | Number(text: string)
    | Text(s: string)
    | Array(items: seq<Json>)
    | Object(fields: seq<Field>)

  datatype Field = Field(key: string, value: Json)

  // ---------------------------------------------------------------- JSON.stringify

  function Utf8(c: char): seq<byte> {
    var n := c as int;
    if n < 0x80 then [n]
    else if n < 0x800 then [0xC0 + n / 0x40, 0x80 + n % 0x40]
    else if n < 0x1_0000 then [0xE0 + n / 0x1000, 0x80 + n / 0x40 % 0x40, 0x80 + n % 0x40]
    else [0xF0 + n / 0x4_0000, 0x80 + n / 0x1000 % 0x40, 0x80 + n / 0x40 % 0x40, 0x80 + n % 0x40]
  }

  function Hex(n: nat): byte
    requires n < 16
  {
    if n < 10 then 48 + n else 87 + n
  }

  // One character of a JSON string: the short escapes, \u00xx for other controls, UTF-8 otherwise.
  function QuoteChar(c: char): seq<byte> {
    var n := c as int;
    if c == '\"' || c == '\\' then [92, n]
    else if n == 8 then [92, 98]
    else if n == 9 then [92, 116]
    else if n == 10 then [92, 110]
    else if n == 12 then [92, 102]
    else if n == 13 then [92, 114]
    else if n < 0x20 then [92, 117, 48, 48, Hex(n / 16), Hex(n % 16)]
    else Utf8(c)
  }

  function QuoteChars(s: string): seq<byte> {
    if s == "" then [] else QuoteChar(s[0]) + QuoteChars(s[1..])
  }

  function Quote(s: string): seq<byte> {
    [34] + QuoteChars(s) + [34]
  }

  function Ascii(s: string): seq<byte> {
    if s == "" then [] else (if (s[0] as int) < 256 then [s[0] as int] else Utf8(s[0])) + Ascii(s[1..])
  }

  function Stringify(j: Json): seq<byte>
    decreases j, 1
  {
    match j
    case Null => [110, 117, 108, 108]
    case Bool(b) => if b then [116, 114, 117, 101] else [102, 97, 108, 115, 101]
    case Number(text) => Ascii(text)
    case Text(s) => Quote(s)
    case Array(items) => [91] + Items(items) + [93]
    case Object(fields) => [123] + Fields(fields) + [125]
  }

  function Items(items: seq<Json>): seq<byte>
    decreases items, 0
  {
    if items == [] then []
    else Items(items[..|items| - 1]) + (if |items| > 1 then [44] else []) + Stringify(items[|items| - 1])
  }

  function Fields(fields: seq<Field>): seq<byte>
    decreases fields, 0
  {
    if fields == [] then []
    else
      var last := fields[|fields| - 1];
      Fields(fields[..|fields| - 1]) + (if |fields| > 1 then [44] else []) + Quote(last.key) + [58]
          + Stringify(last.value)
  }

  function Size(j: Json): nat {
    |Stringify(j)|
  }

  // ---------------------------------------------------------------- envelopes and budgets

  const BATCH_CAP_BYTES := 4 * 1024 * 1024
  const MAX_SAFE_INTEGER := 9007199254740991

  function Batch(force: bool, instructions: seq<Json>): Json {
    Object([Field("protocolVersion", Number("1")), Field("force", Bool(force)),
        Field("instructions", Array(instructions))])
  }

  // The batch Session.flush builds, measured.
  function SerializedBatchSize(instructions: seq<Json>): nat {
    Size(Batch(false, instructions))
  }

  function EmitRequest(id: string, batch: Json): Json {
    Object([Field("type", Text("request")), Field("id", Text(id)), Field("method", Text("ir.emit")),
            Field("params", Object([Field("batch", batch)]))])
  }

  // The envelope around the longest id the client can mint, measured with a placeholder batch.
  function EnvelopeAllowance(): int {
    Size(EmitRequest(IdOf(MAX_SAFE_INTEGER), Number("0"))) - Size(Number("0"))
  }

  function EmitBatchBudget(): int {
    BATCH_CAP_BYTES - EnvelopeAllowance()
  }

  predicate ExceedsBatchCap(bytes: int) {
    bytes > BATCH_CAP_BYTES
  }

  predicate ExceedsEmitBatchBudget(batch: Json) {
    ExceedsBatchCap(Size(batch) + EnvelopeAllowance())
  }

  // ---------------------------------------------------------------- sizes

  lemma {:induction false} PlainQuote(s: string)
    requires forall i :: 0 <= i < |s| ==> 'a' <= s[i] <= 'z' || '0' <= s[i] <= '9'
    ensures |Quote(s)| == |s| + 2
  {
    if s != "" {
      PlainQuote(s[1..]);
    }
  }

  function FieldSize(f: Field): nat {
    |Quote(f.key)| + 1 + Size(f.value)
  }

  lemma OneField(a: Field)
    ensures |Fields([a])| == FieldSize(a)
  {
    assert [a][..0] == [];
  }

  lemma ThreeFields(a: Field, b: Field, c: Field)
    ensures |Fields([a, b, c])| == FieldSize(a) + FieldSize(b) + FieldSize(c) + 2
  {
    OneField(a);
    assert [a, b][..1] == [a] && [a, b, c][..2] == [a, b];
  }

  lemma FourFields(a: Field, b: Field, c: Field, d: Field)
    ensures |Fields([a, b, c, d])| == FieldSize(a) + FieldSize(b) + FieldSize(c) + FieldSize(d) + 3
  {
    ThreeFields(a, b, c);
    assert [a, b, c, d][..3] == [a, b, c];
  }

  // The body around a batch costs its id's length and nothing else that varies.
  lemma EmitRequestSize(id: string, batch: Json, id': string, batch': Json)
    ensures Size(EmitRequest(id, batch)) - |Quote(id)| - Size(batch)
            == Size(EmitRequest(id', batch')) - |Quote(id')| - Size(batch')
  {
    EnvelopeSize(Field("type", Text("request")), "id", id, Field("method", Text("ir.emit")), "params", "batch", batch);
    EnvelopeSize(Field("type", Text("request")), "id", id', Field("method", Text("ir.emit")), "params", "batch",
        batch');
  }

  lemma EnvelopeSize(a: Field, idKey: string, id: string, c: Field, paramsKey: string, batchKey: string, batch: Json)
    ensures Size(Object([a, Field(idKey, Text(id)), c, Field(paramsKey, Object([Field(batchKey, batch)]))]))
         == FieldSize(a) + |Quote(idKey)| + |Quote(id)| + FieldSize(c) + |Quote(paramsKey)| + |Quote(batchKey)|
            + Size(batch) + 10
  {
    OneField(Field(batchKey, batch));
    FourFields(a, Field(idKey, Text(id)), c, Field(paramsKey, Object([Field(batchKey, batch)])));
  }

  // An accepted batch's encoded body never exceeds the cap, whatever the request number.
  lemma AcceptedBatchFitsTheFrame(n: nat, batch: Json)
    requires n <= MAX_SAFE_INTEGER && !ExceedsEmitBatchBudget(batch)
    ensures Size(EmitRequest(IdOf(n), batch)) <= BATCH_CAP_BYTES
    ensures !ExceedsBatchCap(Size(EmitRequest(IdOf(n), batch)))
  {
    IdLength(n);
    IdLength(MAX_SAFE_INTEGER);
    EmitRequestSize(IdOf(n), batch, IdOf(MAX_SAFE_INTEGER), Number("0"));
    LongestId();
  }

  lemma IdLength(n: nat)
    requires n <= MAX_SAFE_INTEGER
    ensures |IdOf(n)| <= 17 && |Quote(IdOf(n))| == |IdOf(n)| + 2
  {
    assert Power10(16) == 10000000000000000 by { TenToThe16(); }
    DecimalLength(n, 16);
    PlainQuote(IdOf(n));
  }

  lemma TenToThe16()
    ensures Power10(16) == 10000000000000000
  {
    assert Power10(4) == 10000;
    assert Power10(8) == 100000000;
    assert Power10(12) == 1000000000000;
  }

  lemma LongestId()
    ensures |IdOf(MAX_SAFE_INTEGER)| == 17
  {
    TenToThe16();
    assert Power10(16) == 10 * Power10(15);
    DecimalAtLeast(MAX_SAFE_INTEGER, 15);
    IdLength(MAX_SAFE_INTEGER);
  }

  lemma {:induction false} DecimalAtLeast(n: nat, k: nat)
    requires Power10(k) <= n
    ensures |Decimal(n)| >= k + 1
  {
    if k > 0 {
      assert Power10(k - 1) <= n / 10;
      DecimalAtLeast(n / 10, k - 1);
    }
  }

  // The budget is tight: at the longest id, one byte more would not fit.
  lemma BudgetIsExact(batch: Json)
    ensures ExceedsEmitBatchBudget(batch) <==> ExceedsBatchCap(Size(EmitRequest(IdOf(MAX_SAFE_INTEGER), batch)))
    ensures ExceedsEmitBatchBudget(batch) <==> Size(batch) > EmitBatchBudget()
  {
    EmitRequestSize(IdOf(MAX_SAFE_INTEGER), batch, IdOf(MAX_SAFE_INTEGER), Number("0"));
  }

  // A directive adds its own bytes, and one comma unless it is the first.
  lemma BatchGrowsBy(instructions: seq<Json>, directive: Json)
    ensures SerializedBatchSize(instructions + [directive])
         == SerializedBatchSize(instructions) + Size(directive) + (if instructions == [] then 0 else 1)
  {
    LastFieldGrowsBy(Field("protocolVersion", Number("1")), Field("force", Bool(false)), "instructions", instructions,
        directive);
  }

  lemma LastFieldGrowsBy(a: Field, b: Field, key: string, items: seq<Json>, item: Json)
    ensures Size(Object([a, b, Field(key, Array(items + [item]))]))
         == Size(Object([a, b, Field(key, Array(items))])) + Size(item) + (if items == [] then 0 else 1)
  {
    var all := items + [item];
    assert all[..|all| - 1] == items && all[|all| - 1] == item;
    assert |Items(all)| == |Items(items)| + Size(item) + (if items == [] then 0 else 1);
    assert Size(Array(all)) == |Items(all)| + 2 && Size(Array(items)) == |Items(items)| + 2;
    ThreeFields(a, b, Field(key, Array(items)));
    ThreeFields(a, b, Field(key, Array(items + [item])));
  }
}
