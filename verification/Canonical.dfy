/** Strings as code points, and the sizes of their encodings. */
module Texts {
  type CodePoint = c: nat | c < 0x110000

  type Text = seq<CodePoint>

  predicate IsSurrogate(c: CodePoint) {
    0xD800 <= c < 0xE000
  }

  /** Python encodes no surrogates; every other code point takes one to four bytes. */
  function Utf8Size(c: CodePoint): nat {
    if c < 0x80 then 1 else if c < 0x800 then 2 else if c < 0x10000 then 3 else 4
  }

  /** The bytes of a code point: the lead byte tells how many follow, each of which carries six bits. */
  function Utf8(c: CodePoint): seq<int> {
    if c < 0x80 then [c]
    else if c < 0x800 then [0xC0 + c / 0x40, 0x80 + c % 0x40]
    else if c < 0x10000 then [0xE0 + c / 0x1000, 0x80 + c / 0x40 % 0x40, 0x80 + c % 0x40]
    else [0xF0 + c / 0x40000, 0x80 + c / 0x1000 % 0x40, 0x80 + c / 0x40 % 0x40, 0x80 + c % 0x40]
  }

  /** Reads one code point by its lead byte. */
  function Utf8Value(bytes: seq<int>): int {
    if |bytes| == 1 && bytes[0] < 0x80 then bytes[0]
    else if |bytes| == 2 && 0xC0 <= bytes[0] < 0xE0 then (bytes[0] - 0xC0) * 0x40 + (bytes[1] - 0x80)
    else if |bytes| == 3 && 0xE0 <= bytes[0] < 0xF0 then (bytes[0] - 0xE0) * 0x1000 + (bytes[1] - 0x80) * 0x40 + (bytes[2] - 0x80)
    else if |bytes| == 4 && 0xF0 <= bytes[0] then
      (bytes[0] - 0xF0) * 0x40000 + (bytes[1] - 0x80) * 0x1000 + (bytes[2] - 0x80) * 0x40 + (bytes[3] - 0x80)
    else -1
  }

  /** The size is that of an encoding from which the code point can be read. */
  lemma Utf8IsRead(c: CodePoint)
    ensures |Utf8(c)| == Utf8Size(c) && Utf8Value(Utf8(c)) == c
    ensures forall i :: 0 <= i < |Utf8(c)| ==> 0 <= Utf8(c)[i] < 0x100
  {
    assert c / 0x40 == c / 0x1000 * 0x40 + c / 0x40 % 0x40;
    assert c / 0x1000 == c / 0x40000 * 0x40 + c / 0x1000 % 0x40;
  }

  function TextSize(t: Text): nat
    decreases |t|
  {
    if t == [] then 0 else TextSize(t[..|t| - 1]) + Utf8Size(t[|t| - 1])
  }

  /** A character in a JSON string that escapes only what it has to. */
  function QuotedSize(c: CodePoint): nat {
    if c in {0x22, 0x5C, 0x08, 0x09, 0x0A, 0x0C, 0x0D} then 2 else if c < 0x20 then 6 else Utf8Size(c)
  }

  function QuotedTextSize(t: Text): nat
    decreases |t|
  {
    if t == [] then 2 else QuotedTextSize(t[..|t| - 1]) + QuotedSize(t[|t| - 1])
  }

  lemma {:induction false} QuotesCost(t: Text)
    ensures |t| <= TextSize(t) && TextSize(t) + 2 <= QuotedTextSize(t)
    decreases |t|
  {
    if t != [] {
      QuotesCost(t[..|t| - 1]);
    }
  }

  lemma {:induction false} TextSizeAdds(a: Text, b: Text)
    ensures TextSize(a + b) == TextSize(a) + TextSize(b)
    decreases |b|
  {
    if b == [] {
      assert a + b == a;
    } else {
      assert (a + b)[..|a + b| - 1] == a + b[..|b| - 1];
      TextSizeAdds(a, b[..|b| - 1]);
    }
  }
}

/** Decimal spellings of integers, and what a bit length says about them. */
module Decimals {
  function Power(base: nat, e: nat): nat {
    if e == 0 then 1 else base * Power(base, e - 1)
  }

  function Digits(n: nat): nat {
    if n < 10 then 1 else Digits(n / 10) + 1
  }

  function Magnitude(i: int): nat {
    if i < 0 then -i else i
  }

  /** The length of the decimal spelling, with its sign. */
  function DecimalSize(i: int): nat {
    Digits(Magnitude(i)) + if i < 0 then 1 else 0
  }

  function BitLength(n: nat): nat {
    if n == 0 then 0 else BitLength(n / 2) + 1
  }

  lemma {:induction false} DigitsBound(n: nat, m: nat)
    requires Digits(n) <= m
    ensures n < Power(10, m)
    decreases m
  {
    if n >= 10 {
      DigitsBound(n / 10, m - 1);
    } else {
      PowerIsPositive(10, m - 1);
    }
  }

  lemma {:induction false} PowerIsPositive(base: nat, e: nat)
    requires base > 0
    ensures Power(base, e) >= 1
  {
    if e > 0 {
      PowerIsPositive(base, e - 1);
      assert base * Power(base, e - 1) >= Power(base, e - 1);
    }
  }

  lemma {:induction false} BitsBound(n: nat, b: nat)
    requires n < Power(2, b)
    ensures BitLength(n) <= b
    decreases b
  {
    if b > 0 && n > 0 {
      BitsBound(n / 2, b - 1);
    }
  }

  lemma {:induction false} TenIsLessThanFourBits(m: nat)
    ensures Power(10, m) <= Power(2, 4 * m)
  {
    if m > 0 {
      TenIsLessThanFourBits(m - 1);
      assert Power(2, 4 * m) == 2 * Power(2, 4 * m - 1) == 4 * Power(2, 4 * m - 2) == 8 * Power(2, 4 * m - 3) == 16 * Power(2, 4 * (m - 1));
    }
  }

  /** A number has as many digits as the power of ten above it tells. */
  lemma {:induction false} DigitsExactly(n: nat, m: nat)
    requires n > 0
    ensures Digits(n) <= m <==> n < Power(10, m)
    decreases m
  {
    if m == 0 {
      assert Power(10, 0) == 1;
    } else if n >= 10 {
      DigitsExactly(n / 10, m - 1);
    } else {
      PowerIsPositive(10, m - 1);
    }
  }

  /** More than four bits for each of m digits do not fit into m digits. */
  lemma LongIntegersHaveManyDigits(i: int, m: nat)
    requires BitLength(Magnitude(i)) > 4 * m
    ensures DecimalSize(i) > m
  {
    if Digits(Magnitude(i)) <= m {
      DigitsBound(Magnitude(i), m);
      TenIsLessThanFourBits(m);
      BitsBound(Magnitude(i), 4 * m);
    }
  }
}

/** The bounds checked before a document is encoded, and those checked when it is loaded. */
module CanonicalJson {
  import opened Outcomes
  import opened Texts
  import opened Decimals

  const MAX_DOCUMENT_BYTES: nat := 8 * 1024 * 1024
  const MAX_DOCUMENT_DEPTH: nat := 64
  const MAX_DOCUMENT_NODES: nat := 100000

  type Positive = n: nat | n > 0 witness 1

  /** Mapping keys that are not strings occur in documents built in memory. */
  datatype Key = Named(name: Text) | NotText

  datatype Entry = Entry(key: Key, value: Value)

  /** A finite float is known by the size of its spelling. */
  datatype Value =
    | Null
    | Boolean(b: bool)
    | Integer(i: int)
    | Number(finite: bool, spelling: Positive)
    | Str(text: Text)
    | List(items: seq<Value>)
    | Dict(entries: seq<Entry>)
    | Unsupported

  datatype Refusal =
    | DepthOrNodes | TextTooLong | IntegerTooLong | DocumentTooLong
    | InvalidUnicode | ConversionLimit | NonFinite | InvalidType | DuplicateKey

  datatype Budget = Budget(nodes: nat, bytes: nat)

  // ---- Scalars --------------------------------------------------------------------------

  predicate HasSurrogate(t: Text) {
    exists c :: c in t && IsSurrogate(c)
  }

  function CheckText(t: Text): Result<nat, Refusal> {
    if |t| > MAX_DOCUMENT_BYTES then Err(TextTooLong)
    else if HasSurrogate(t) then Err(InvalidUnicode)
    else if TextSize(t) > MAX_DOCUMENT_BYTES then Err(TextTooLong)
    else Ok(TextSize(t))
  }

  /** digitLimit is the interpreter's bound on decimal conversion; zero switches it off. */
  function CheckInteger(i: int, digitLimit: nat): Result<nat, Refusal> {
    if BitLength(Magnitude(i)) > 4 * MAX_DOCUMENT_BYTES then Err(IntegerTooLong)
    else if digitLimit != 0 && Digits(Magnitude(i)) > digitLimit then Err(ConversionLimit)
    else if DecimalSize(i) > MAX_DOCUMENT_BYTES then Err(IntegerTooLong)
    else Ok(DecimalSize(i))
  }

  lemma {:induction false} TextSizeIsLonger(t: Text)
    ensures |t| <= TextSize(t)
    decreases |t|
  {
    if t != [] {
      TextSizeIsLonger(t[..|t| - 1]);
    }
  }

  predicate IsScalar(v: Value) {
    !v.List? && !v.Dict?
  }

  function CheckScalar(v: Value, digitLimit: nat): Result<nat, Refusal>
    requires IsScalar(v)
  {
    match v
    case Str(t) => CheckText(t)
    case Integer(i) => CheckInteger(i, digitLimit)
    case Number(finite, _) => if finite then Ok(1) else Err(NonFinite)
    case Unsupported => Err(InvalidType)
    case Null | Boolean(_) => Ok(1)
  }

  /**
   Exactly these scalars pass: text without surrogates and integers that the
   interpreter may spell, each of at most eight megabytes, and finite numbers;
   the shortcuts for long texts and integers refuse nothing else.
   */
  lemma ScalarAcceptedExactly(v: Value, digitLimit: nat)
    requires IsScalar(v)
    ensures CheckScalar(v, digitLimit).Ok? <==>
              match v
              case Str(t) => (forall c :: c in t ==> c < 0xD800 || 0xE000 <= c) && TextSize(t) <= 8 * 1024 * 1024
              case Integer(i) => (digitLimit == 0 || Digits(Magnitude(i)) <= digitLimit) && DecimalSize(i) <= 8 * 1024 * 1024
              case Number(finite, _) => finite
              case Unsupported => false
              case _ => true
  {
    hide TextSize, Digits, BitLength;
    match v
    case Str(t) => TextSizeIsLonger(t);
    case Integer(i) =>
      if BitLength(Magnitude(i)) > 4 * MAX_DOCUMENT_BYTES {
        LongIntegersHaveManyDigits(i, MAX_DOCUMENT_BYTES);
      }
    case _ =>
  }

  // ---- The check before encoding -----------------------------------------------------------

  function CheckLeaf(v: Value, depth: nat, b: Budget, digitLimit: nat): Result<Budget, Refusal>
    requires IsScalar(v)
  {
    var nodes := b.nodes + 1;
    if depth > MAX_DOCUMENT_DEPTH || nodes > MAX_DOCUMENT_NODES then Err(DepthOrNodes)
    else
      var size := CheckScalar(v, digitLimit);
      if size.Err? then Err(size.error)
      else if b.bytes + size.value > MAX_DOCUMENT_BYTES then Err(DocumentTooLong)
      else Ok(Budget(nodes, b.bytes + size.value))
  }

  /** A key is checked as a string first, then visited as a node of its own. */
  function CheckKey(k: Key, depth: nat, b: Budget, digitLimit: nat): Result<Budget, Refusal> {
    if k.NotText? then Err(InvalidType)
    else
      var size := CheckText(k.name);
      if size.Err? then Err(size.error) else CheckLeaf(Str(k.name), depth, b, digitLimit)
  }

  function Check(v: Value, depth: nat, b: Budget, digitLimit: nat): Result<Budget, Refusal>
    decreases v, 1, 0
  {
    if IsScalar(v) then CheckLeaf(v, depth, b, digitLimit)
    else if depth > MAX_DOCUMENT_DEPTH || b.nodes + 1 > MAX_DOCUMENT_NODES then Err(DepthOrNodes)
    else if v.List? then CheckItems(v, |v.items|, depth, b.(nodes := b.nodes + 1), digitLimit)
    else CheckEntries(v, |v.entries|, depth, b.(nodes := b.nodes + 1), digitLimit)
  }

  function CheckItems(v: Value, n: nat, depth: nat, b: Budget, digitLimit: nat): Result<Budget, Refusal>
    requires v.List? && n <= |v.items|
    decreases v, 0, n
  {
    if n == 0 then Ok(b)
    else
      var before := CheckItems(v, n - 1, depth, b, digitLimit);
      if before.Err? then before else Check(v.items[n - 1], depth + 1, before.value, digitLimit)
  }

  function CheckEntries(v: Value, n: nat, depth: nat, b: Budget, digitLimit: nat): Result<Budget, Refusal>
    requires v.Dict? && n <= |v.entries|
    decreases v, 0, n
  {
    if n == 0 then Ok(b)
    else
      var before := CheckEntries(v, n - 1, depth, b, digitLimit);
      if before.Err? then before
      else
        var key := CheckKey(v.entries[n - 1].key, depth + 1, before.value, digitLimit);
        if key.Err? then key else Check(v.entries[n - 1].value, depth + 1, key.value, digitLimit)
  }

  // ---- The document itself ---------------------------------------------------------------------

  function Nodes(v: Value): nat
    decreases v, 1, 0
  {
    match v
    case List(items) => 1 + ItemNodes(v, |items|)
    case Dict(entries) => 1 + EntryNodes(v, |entries|)
    case Null | Boolean(_) | Integer(_) | Number(_, _) | Str(_) | Unsupported => 1
  }

  function ItemNodes(v: Value, n: nat): nat
    requires v.List? && n <= |v.items|
    decreases v, 0, n
  {
    if n == 0 then 0 else ItemNodes(v, n - 1) + Nodes(v.items[n - 1])
  }

  function EntryNodes(v: Value, n: nat): nat
    requires v.Dict? && n <= |v.entries|
    decreases v, 0, n
  {
    if n == 0 then 0 else EntryNodes(v, n - 1) + 1 + Nodes(v.entries[n - 1].value)
  }

  /** No node, keys included, lies deeper than the limit when v lies at depth. */
  predicate IsShallow(v: Value, depth: nat)
    decreases v
  {
    && depth <= MAX_DOCUMENT_DEPTH
    && (v.List? ==> forall i :: 0 <= i < |v.items| ==> IsShallow(v.items[i], depth + 1))
    && (v.Dict? ==> forall i :: 0 <= i < |v.entries| ==> depth + 1 <= MAX_DOCUMENT_DEPTH && IsShallow(v.entries[i].value, depth + 1))
  }

  /** Every scalar and every key is one that JSON can carry and the interpreter can spell. */
  predicate IsEncodable(v: Value, digitLimit: nat)
    decreases v
  {
    && (IsScalar(v) ==> CheckScalar(v, digitLimit).Ok?)
    && (v.List? ==> forall i :: 0 <= i < |v.items| ==> IsEncodable(v.items[i], digitLimit))
    && (v.Dict? ==> forall i :: 0 <= i < |v.entries| ==>
          && v.entries[i].key.Named? && CheckText(v.entries[i].key.name).Ok?
          && IsEncodable(v.entries[i].value, digitLimit))
  }

  /** The size of the compact UTF-8 encoding of an encodable document. */
  function Size(v: Value): nat
    decreases v, 1, 0
  {
    match v
    case Null => 4
    case Boolean(b) => if b then 4 else 5
    case Integer(i) => DecimalSize(i)
    case Number(_, spelling) => spelling
    case Str(t) => QuotedTextSize(t)
    case List(items) => 2 + ItemSizes(v, |items|) + (if items == [] then 0 else |items| - 1)
    case Dict(entries) => 2 + EntrySizes(v, |entries|) + (if entries == [] then 0 else |entries| - 1)
    case Unsupported => 1
  }

  function ItemSizes(v: Value, n: nat): nat
    requires v.List? && n <= |v.items|
    decreases v, 0, n
  {
    if n == 0 then 0 else ItemSizes(v, n - 1) + Size(v.items[n - 1])
  }

  function KeySize(k: Key): nat {
    if k.Named? then QuotedTextSize(k.name) else 0
  }

  function EntrySizes(v: Value, n: nat): nat
    requires v.Dict? && n <= |v.entries|
    decreases v, 0, n
  {
    if n == 0 then 0 else EntrySizes(v, n - 1) + KeySize(v.entries[n - 1].key) + 1 + Size(v.entries[n - 1].value)
  }

  /** What the check counts towards the byte limit. */
  function Lower(v: Value): nat
    decreases v, 1, 0
  {
    match v
    case Str(t) => TextSize(t)
    case Integer(i) => DecimalSize(i)
    case List(items) => ItemLower(v, |items|)
    case Dict(entries) => EntryLower(v, |entries|)
    case Null | Boolean(_) | Number(_, _) | Unsupported => 1
  }

  function ItemLower(v: Value, n: nat): nat
    requires v.List? && n <= |v.items|
    decreases v, 0, n
  {
    if n == 0 then 0 else ItemLower(v, n - 1) + Lower(v.items[n - 1])
  }

  function KeyLower(k: Key): nat {
    if k.Named? then TextSize(k.name) else 0
  }

  function EntryLower(v: Value, n: nat): nat
    requires v.Dict? && n <= |v.entries|
    decreases v, 0, n
  {
    if n == 0 then 0 else EntryLower(v, n - 1) + KeyLower(v.entries[n - 1].key) + Lower(v.entries[n - 1].value)
  }

  // ---- The byte budget never exceeds the encoded size -----------------------------------------------

  lemma {:induction false} LowerIsNoMore(v: Value)
    ensures Lower(v) <= Size(v)
    decreases v, 1, 0
  {
    if v.Str? {
      QuotesCost(v.text);
    } else if v.List? {
      ItemLowerIsNoMore(v, |v.items|);
    } else if v.Dict? {
      EntryLowerIsNoMore(v, |v.entries|);
    }
  }

  lemma {:induction false} ItemLowerIsNoMore(v: Value, n: nat)
    requires v.List? && n <= |v.items|
    ensures ItemLower(v, n) <= ItemSizes(v, n)
    decreases v, 0, n
  {
    if n > 0 {
      ItemLowerIsNoMore(v, n - 1);
      LowerIsNoMore(v.items[n - 1]);
    }
  }

  lemma {:induction false} EntryLowerIsNoMore(v: Value, n: nat)
    requires v.Dict? && n <= |v.entries|
    ensures EntryLower(v, n) <= EntrySizes(v, n)
    decreases v, 0, n
  {
    if n > 0 {
      EntryLowerIsNoMore(v, n - 1);
      LowerIsNoMore(v.entries[n - 1].value);
      if v.entries[n - 1].key.Named? {
        QuotesCost(v.entries[n - 1].key.name);
      }
    }
  }

  // ---- Exactly which documents are accepted ------------------------------------------------------------

  predicate Fits(b: Budget) {
    b.nodes <= MAX_DOCUMENT_NODES && b.bytes <= MAX_DOCUMENT_BYTES
  }

  lemma LeafIsExact(v: Value, depth: nat, b: Budget, digitLimit: nat)
    requires IsScalar(v) && b.bytes <= MAX_DOCUMENT_BYTES
    ensures CheckLeaf(v, depth, b, digitLimit).Ok? <==>
              depth <= MAX_DOCUMENT_DEPTH && CheckScalar(v, digitLimit).Ok? && Fits(Budget(b.nodes + 1, b.bytes + Lower(v)))
    ensures CheckLeaf(v, depth, b, digitLimit).Ok? ==>
              CheckLeaf(v, depth, b, digitLimit).value == Budget(b.nodes + 1, b.bytes + Lower(v))
  {
    hide TextSize, BitLength, Digits;
  }

  lemma KeyIsExact(k: Key, depth: nat, b: Budget, digitLimit: nat)
    requires b.bytes <= MAX_DOCUMENT_BYTES
    ensures CheckKey(k, depth, b, digitLimit).Ok? <==>
              && depth <= MAX_DOCUMENT_DEPTH && k.Named? && CheckText(k.name).Ok?
              && Fits(Budget(b.nodes + 1, b.bytes + KeyLower(k)))
    ensures CheckKey(k, depth, b, digitLimit).Ok? ==>
              CheckKey(k, depth, b, digitLimit).value == Budget(b.nodes + 1, b.bytes + KeyLower(k))
  {
    hide TextSize, CheckLeaf;
    if k.Named? {
      LeafIsExact(Str(k.name), depth, b, digitLimit);
    }
  }

  /** The check accepts exactly the documents within all bounds, and counts their nodes and bytes. */
  lemma {:induction false} CheckIsExact(v: Value, depth: nat, b: Budget, digitLimit: nat)
    requires b.bytes <= MAX_DOCUMENT_BYTES
    ensures Check(v, depth, b, digitLimit).Ok? <==>
              IsShallow(v, depth) && IsEncodable(v, digitLimit) && Fits(Budget(b.nodes + Nodes(v), b.bytes + Lower(v)))
    ensures Check(v, depth, b, digitLimit).Ok? ==>
              Check(v, depth, b, digitLimit).value == Budget(b.nodes + Nodes(v), b.bytes + Lower(v))
    decreases v, 1, 0
  {
    hide CheckLeaf, CheckScalar;
    if IsScalar(v) {
      LeafIsExact(v, depth, b, digitLimit);
    } else if depth <= MAX_DOCUMENT_DEPTH && b.nodes + 1 <= MAX_DOCUMENT_NODES {
      if v.List? {
        ItemsAreExact(v, |v.items|, depth, b.(nodes := b.nodes + 1), digitLimit);
      } else {
        EntriesAreExact(v, |v.entries|, depth, b.(nodes := b.nodes + 1), digitLimit);
      }
    }
  }

  lemma {:induction false} ItemsAreExact(v: Value, n: nat, depth: nat, b: Budget, digitLimit: nat)
    requires v.List? && n <= |v.items| && Fits(b)
    ensures CheckItems(v, n, depth, b, digitLimit).Ok? <==>
              && (forall i :: 0 <= i < n ==> IsShallow(v.items[i], depth + 1))
              && (forall i :: 0 <= i < n ==> IsEncodable(v.items[i], digitLimit))
              && Fits(Budget(b.nodes + ItemNodes(v, n), b.bytes + ItemLower(v, n)))
    ensures CheckItems(v, n, depth, b, digitLimit).Ok? ==>
              CheckItems(v, n, depth, b, digitLimit).value == Budget(b.nodes + ItemNodes(v, n), b.bytes + ItemLower(v, n))
    decreases v, 0, n
  {
    hide Check, IsShallow, IsEncodable, Nodes, Lower;
    if n > 0 {
      ItemsAreExact(v, n - 1, depth, b, digitLimit);
      var before := CheckItems(v, n - 1, depth, b, digitLimit);
      if before.Ok? {
        CheckIsExact(v.items[n - 1], depth + 1, before.value, digitLimit);
      }
    }
  }

  lemma {:induction false} EntriesAreExact(v: Value, n: nat, depth: nat, b: Budget, digitLimit: nat)
    requires v.Dict? && n <= |v.entries| && Fits(b)
    ensures CheckEntries(v, n, depth, b, digitLimit).Ok? <==>
              && (forall i :: 0 <= i < n ==> depth + 1 <= MAX_DOCUMENT_DEPTH && IsShallow(v.entries[i].value, depth + 1))
              && (forall i :: 0 <= i < n ==>
                    && v.entries[i].key.Named? && CheckText(v.entries[i].key.name).Ok?
                    && IsEncodable(v.entries[i].value, digitLimit))
              && Fits(Budget(b.nodes + EntryNodes(v, n), b.bytes + EntryLower(v, n)))
    ensures CheckEntries(v, n, depth, b, digitLimit).Ok? ==>
              CheckEntries(v, n, depth, b, digitLimit).value == Budget(b.nodes + EntryNodes(v, n), b.bytes + EntryLower(v, n))
    decreases v, 0, n
  {
    hide Check, CheckKey, CheckText, IsShallow, IsEncodable, Nodes, Lower, KeyLower;
    if n > 0 {
      EntriesAreExact(v, n - 1, depth, b, digitLimit);
      var before := CheckEntries(v, n - 1, depth, b, digitLimit);
      if before.Ok? {
        KeyIsExact(v.entries[n - 1].key, depth + 1, before.value, digitLimit);
        var key := CheckKey(v.entries[n - 1].key, depth + 1, before.value, digitLimit);
        if key.Ok? {
          CheckIsExact(v.entries[n - 1].value, depth + 1, key.value, digitLimit);
        }
      }
    }
  }

  // ---- What a refusal means -----------------------------------------------------------------------------

  predicate IsByteLimit(r: Refusal) {
    r in {TextTooLong, IntegerTooLong, DocumentTooLong}
  }

  /** What a refusal says: too many bytes in the encoding, or a node too deep or too many. */
  predicate IsJustified(r: Refusal, bytes: nat, isWithin: bool) {
    (IsByteLimit(r) ==> bytes > MAX_DOCUMENT_BYTES) && (r == DepthOrNodes ==> !isWithin)
  }

  lemma ScalarRefusalIsJustified(v: Value, digitLimit: nat)
    requires IsScalar(v) && CheckScalar(v, digitLimit).Err?
    ensures IsByteLimit(CheckScalar(v, digitLimit).error) ==> Size(v) > MAX_DOCUMENT_BYTES
    ensures CheckScalar(v, digitLimit).error != DepthOrNodes
  {
    hide TextSize, QuotedTextSize, BitLength, Digits;
    if v.Str? {
      QuotesCost(v.text);
    } else if v.Integer? && BitLength(Magnitude(v.i)) > 4 * MAX_DOCUMENT_BYTES {
      LongIntegersHaveManyDigits(v.i, MAX_DOCUMENT_BYTES);
    }
  }

  lemma LeafRefusalIsJustified(v: Value, depth: nat, b: Budget, digitLimit: nat)
    requires IsScalar(v) && b.bytes <= MAX_DOCUMENT_BYTES && CheckLeaf(v, depth, b, digitLimit).Err?
    ensures IsJustified(CheckLeaf(v, depth, b, digitLimit).error, b.bytes + Size(v),
                        depth <= MAX_DOCUMENT_DEPTH && b.nodes + 1 <= MAX_DOCUMENT_NODES)
  {
    hide CheckScalar, Size, Lower;
    LowerIsNoMore(v);
    if CheckScalar(v, digitLimit).Err? {
      ScalarRefusalIsJustified(v, digitLimit);
    } else {
      ScalarCountsLower(v, digitLimit);
    }
  }

  lemma ScalarCountsLower(v: Value, digitLimit: nat)
    requires IsScalar(v) && CheckScalar(v, digitLimit).Ok?
    ensures CheckScalar(v, digitLimit).value == Lower(v)
  {
    hide TextSize, BitLength, Digits;
  }

  lemma KeyRefusalIsJustified(k: Key, depth: nat, b: Budget, digitLimit: nat)
    requires b.bytes <= MAX_DOCUMENT_BYTES && CheckKey(k, depth, b, digitLimit).Err?
    ensures IsJustified(CheckKey(k, depth, b, digitLimit).error, b.bytes + KeySize(k),
                        depth <= MAX_DOCUMENT_DEPTH && b.nodes + 1 <= MAX_DOCUMENT_NODES)
  {
    hide CheckLeaf, TextSize, QuotedTextSize;
    if k.Named? {
      QuotesCost(k.name);
      if CheckText(k.name).Ok? {
        LeafRefusalIsJustified(Str(k.name), depth, b, digitLimit);
      }
    }
  }

  /**
   A refusal for bytes means that the encoding does not fit, and one for depth
   or nodes that the document exceeds those bounds: nothing within the bounds
   is refused for them.
   */
  lemma {:induction false} RefusalIsJustified(v: Value, depth: nat, b: Budget, digitLimit: nat)
    requires b.bytes <= MAX_DOCUMENT_BYTES && Check(v, depth, b, digitLimit).Err?
    ensures IsJustified(Check(v, depth, b, digitLimit).error, b.bytes + Size(v),
                        IsShallow(v, depth) && b.nodes + Nodes(v) <= MAX_DOCUMENT_NODES)
    decreases v, 1, 0
  {
    hide CheckLeaf, CheckScalar;
    if IsScalar(v) {
      LeafRefusalIsJustified(v, depth, b, digitLimit);
    } else if depth <= MAX_DOCUMENT_DEPTH && b.nodes + 1 <= MAX_DOCUMENT_NODES {
      if v.List? {
        ItemRefusalIsJustified(v, |v.items|, depth, b.(nodes := b.nodes + 1), digitLimit);
      } else {
        EntryRefusalIsJustified(v, |v.entries|, depth, b.(nodes := b.nodes + 1), digitLimit);
      }
    }
  }

  lemma {:induction false} ItemRefusalIsJustified(v: Value, n: nat, depth: nat, b: Budget, digitLimit: nat)
    requires v.List? && n <= |v.items| && Fits(b) && CheckItems(v, n, depth, b, digitLimit).Err?
    ensures IsJustified(CheckItems(v, n, depth, b, digitLimit).error, b.bytes + ItemSizes(v, n),
                        (forall i :: 0 <= i < n ==> IsShallow(v.items[i], depth + 1)) && b.nodes + ItemNodes(v, n) <= MAX_DOCUMENT_NODES)
    decreases v, 0, n
  {
    hide Check, IsShallow, Nodes, Size, Lower;
    ItemsAreExact(v, n - 1, depth, b, digitLimit);
    var before := CheckItems(v, n - 1, depth, b, digitLimit);
    if before.Err? {
      ItemRefusalIsJustified(v, n - 1, depth, b, digitLimit);
    } else {
      ItemLowerIsNoMore(v, n - 1);
      RefusalIsJustified(v.items[n - 1], depth + 1, before.value, digitLimit);
    }
  }

  lemma {:induction false} EntryRefusalIsJustified(v: Value, n: nat, depth: nat, b: Budget, digitLimit: nat)
    requires v.Dict? && n <= |v.entries| && Fits(b) && CheckEntries(v, n, depth, b, digitLimit).Err?
    ensures IsJustified(CheckEntries(v, n, depth, b, digitLimit).error, b.bytes + EntrySizes(v, n),
                        && (forall i :: 0 <= i < n ==> depth + 1 <= MAX_DOCUMENT_DEPTH && IsShallow(v.entries[i].value, depth + 1))
                        && b.nodes + EntryNodes(v, n) <= MAX_DOCUMENT_NODES)
    decreases v, 0, n
  {
    hide Check, CheckKey, IsShallow, Nodes, Size, Lower, KeyLower, KeySize;
    EntriesAreExact(v, n - 1, depth, b, digitLimit);
    var before := CheckEntries(v, n - 1, depth, b, digitLimit);
    if before.Err? {
      EntryRefusalIsJustified(v, n - 1, depth, b, digitLimit);
    } else {
      var e := v.entries[n - 1];
      EntryLowerIsNoMore(v, n - 1);
      var key := CheckKey(e.key, depth + 1, before.value, digitLimit);
      if key.Err? {
        KeyRefusalIsJustified(e.key, depth + 1, before.value, digitLimit);
      } else {
        KeyIsExact(e.key, depth + 1, before.value, digitLimit);
        KeyLowerIsNoMore(e.key);
        RefusalIsJustified(e.value, depth + 1, key.value, digitLimit);
      }
    }
  }

  lemma KeyLowerIsNoMore(k: Key)
    ensures KeyLower(k) <= KeySize(k)
  {
    if k.Named? {
      QuotesCost(k.name);
    }
  }

  /** No document whose encoding fits is refused for its bytes. */
  lemma FittingDocumentsPass(v: Value, digitLimit: nat)
    requires Size(v) <= MAX_DOCUMENT_BYTES
    ensures var r := Check(v, 1, Budget(0, 0), digitLimit); r.Err? ==> !IsByteLimit(r.error)
  {
    hide Check, Size;
    if Check(v, 1, Budget(0, 0), digitLimit).Err? {
      RefusalIsJustified(v, 1, Budget(0, 0), digitLimit);
    }
  }

  /** How many levels a document has; the keys of a mapping lie one below it. */
  function Levels(v: Value): nat
    decreases v, 1, 0
  {
    match v
    case List(items) => 1 + ItemLevels(v, |items|)
    case Dict(entries) => 1 + EntryLevels(v, |entries|)
    case Null | Boolean(_) | Integer(_) | Number(_, _) | Str(_) | Unsupported => 1
  }

  function Deeper(a: nat, b: nat): nat {
    if a < b then b else a
  }

  function ItemLevels(v: Value, n: nat): nat
    requires v.List? && n <= |v.items|
    decreases v, 0, n
  {
    if n == 0 then 0 else Deeper(ItemLevels(v, n - 1), Levels(v.items[n - 1]))
  }

  function EntryLevels(v: Value, n: nat): nat
    requires v.Dict? && n <= |v.entries|
    decreases v, 0, n
  {
    if n == 0 then 0 else Deeper(EntryLevels(v, n - 1), Levels(v.entries[n - 1].value))
  }

  lemma {:induction false} ShallowExactly(v: Value, depth: nat)
    ensures IsShallow(v, depth) <==> depth + Levels(v) <= 65
    decreases v, 1, 0
  {
    if v.List? {
      ShallowItemsExactly(v, |v.items|, depth);
    } else if v.Dict? {
      ShallowEntriesExactly(v, |v.entries|, depth);
    }
  }

  lemma {:induction false} ShallowItemsExactly(v: Value, n: nat, depth: nat)
    requires v.List? && n <= |v.items|
    ensures (forall i :: 0 <= i < n ==> IsShallow(v.items[i], depth + 1)) <==> n == 0 || depth + 1 + ItemLevels(v, n) <= 65
    decreases v, 0, n
  {
    hide IsShallow;
    if n > 0 {
      ShallowItemsExactly(v, n - 1, depth);
      ShallowExactly(v.items[n - 1], depth + 1);
      LevelsArePositive(v.items[n - 1]);
    }
  }

  lemma {:induction false} ShallowEntriesExactly(v: Value, n: nat, depth: nat)
    requires v.Dict? && n <= |v.entries|
    ensures (forall i :: 0 <= i < n ==> depth + 1 <= MAX_DOCUMENT_DEPTH && IsShallow(v.entries[i].value, depth + 1)) <==>
              n == 0 || depth + 1 + EntryLevels(v, n) <= 65
    decreases v, 0, n
  {
    hide IsShallow;
    if n > 0 {
      ShallowEntriesExactly(v, n - 1, depth);
      ShallowExactly(v.entries[n - 1].value, depth + 1);
      LevelsArePositive(v.entries[n - 1].value);
    }
  }

  lemma LevelsArePositive(v: Value)
    ensures Levels(v) >= 1
  {
  }

  /** The whole check of a document: its levels, its nodes, its values and the bytes counted for them. */
  lemma DocumentAcceptedExactly(v: Value, digitLimit: nat)
    ensures Check(v, 1, Budget(0, 0), digitLimit).Ok? <==>
              Levels(v) <= 64 && Nodes(v) <= 100_000 && Lower(v) <= 8 * 1024 * 1024 && IsEncodable(v, digitLimit)
  {
    hide Check, Levels, Nodes, Lower, IsEncodable, IsShallow;
    CheckIsExact(v, 1, Budget(0, 0), digitLimit);
    ShallowExactly(v, 1);
  }

  // ---- The loader's bounds ---------------------------------------------------------------------------------

  function LoadLeaf(v: Value, depth: nat, count: nat): Result<nat, Refusal>
    requires IsScalar(v)
  {
    if depth > MAX_DOCUMENT_DEPTH || count + 1 > MAX_DOCUMENT_NODES then Err(DepthOrNodes)
    else if v.Number? && !v.finite then Err(NonFinite)
    else Ok(count + 1)
  }

  predicate IsRepeated(v: Value, n: nat)
    requires v.Dict? && n < |v.entries|
  {
    exists i :: 0 <= i < n && v.entries[i].key == v.entries[n].key
  }

  /** Parsed pairs become a mapping; a repeated key is refused before it is counted. */
  function Load(v: Value, depth: nat, count: nat): Result<nat, Refusal>
    decreases v, 1, 0
  {
    if IsScalar(v) then LoadLeaf(v, depth, count)
    else if depth > MAX_DOCUMENT_DEPTH || count + 1 > MAX_DOCUMENT_NODES then Err(DepthOrNodes)
    else if v.List? then LoadItems(v, |v.items|, depth, count + 1)
    else LoadEntries(v, |v.entries|, depth, count + 1)
  }

  function LoadItems(v: Value, n: nat, depth: nat, count: nat): Result<nat, Refusal>
    requires v.List? && n <= |v.items|
    decreases v, 0, n
  {
    if n == 0 then Ok(count)
    else
      var before := LoadItems(v, n - 1, depth, count);
      if before.Err? then before else Load(v.items[n - 1], depth + 1, before.value)
  }

  function LoadEntries(v: Value, n: nat, depth: nat, count: nat): Result<nat, Refusal>
    requires v.Dict? && n <= |v.entries|
    decreases v, 0, n
  {
    if n == 0 then Ok(count)
    else
      var before := LoadEntries(v, n - 1, depth, count);
      if before.Err? then before
      else if IsRepeated(v, n - 1) then Err(DuplicateKey)
      else
        var key := LoadLeaf(Str([]), depth + 1, before.value);
        if key.Err? then key else Load(v.entries[n - 1].value, depth + 1, key.value)
  }

  /** No mapping repeats a key, and every number is finite. */
  predicate IsPlain(v: Value)
    decreases v
  {
    && (v.Number? ==> v.finite)
    && (v.List? ==> forall i :: 0 <= i < |v.items| ==> IsPlain(v.items[i]))
    && (v.Dict? ==> forall i :: 0 <= i < |v.entries| ==> !IsRepeated(v, i) && IsPlain(v.entries[i].value))
  }

  /** The loader accepts a plain document exactly when it is within depth and nodes, and refuses it for nothing else. */
  lemma {:induction false} LoadIsExact(v: Value, depth: nat, count: nat)
    requires IsPlain(v)
    ensures Load(v, depth, count) ==
              if IsShallow(v, depth) && count + Nodes(v) <= MAX_DOCUMENT_NODES then Ok(count + Nodes(v)) else Err(DepthOrNodes)
    decreases v, 1, 0
  {
    if v.List? && depth <= MAX_DOCUMENT_DEPTH && count + 1 <= MAX_DOCUMENT_NODES {
      LoadItemsIsExact(v, |v.items|, depth, count + 1);
    } else if v.Dict? && depth <= MAX_DOCUMENT_DEPTH && count + 1 <= MAX_DOCUMENT_NODES {
      LoadEntriesIsExact(v, |v.entries|, depth, count + 1);
    }
  }

  lemma {:induction false} LoadItemsIsExact(v: Value, n: nat, depth: nat, count: nat)
    requires v.List? && n <= |v.items| && count <= MAX_DOCUMENT_NODES && forall i :: 0 <= i < n ==> IsPlain(v.items[i])
    ensures LoadItems(v, n, depth, count) ==
              if (forall i :: 0 <= i < n ==> IsShallow(v.items[i], depth + 1)) && count + ItemNodes(v, n) <= MAX_DOCUMENT_NODES
              then Ok(count + ItemNodes(v, n)) else Err(DepthOrNodes)
    decreases v, 0, n
  {
    hide Load, IsShallow, Nodes, IsPlain;
    if n > 0 {
      LoadItemsIsExact(v, n - 1, depth, count);
      var before := LoadItems(v, n - 1, depth, count);
      if before.Ok? {
        LoadIsExact(v.items[n - 1], depth + 1, before.value);
      }
    }
  }

  lemma {:induction false} LoadEntriesIsExact(v: Value, n: nat, depth: nat, count: nat)
    requires v.Dict? && n <= |v.entries| && count <= MAX_DOCUMENT_NODES
    requires forall i :: 0 <= i < n ==> !IsRepeated(v, i) && IsPlain(v.entries[i].value)
    ensures LoadEntries(v, n, depth, count) ==
              if (forall i :: 0 <= i < n ==> depth + 1 <= MAX_DOCUMENT_DEPTH && IsShallow(v.entries[i].value, depth + 1)) &&
                 count + EntryNodes(v, n) <= MAX_DOCUMENT_NODES
              then Ok(count + EntryNodes(v, n)) else Err(DepthOrNodes)
    decreases v, 0, n
  {
    hide Load, IsShallow, Nodes, IsPlain, IsRepeated;
    if n > 0 {
      LoadEntriesIsExact(v, n - 1, depth, count);
      var before := LoadEntries(v, n - 1, depth, count);
      if before.Ok? {
        var key := LoadLeaf(Str([]), depth + 1, before.value);
        if key.Ok? {
          LoadIsExact(v.entries[n - 1].value, depth + 1, key.value);
        }
      }
    }
  }

  /** On plain documents, the two checks agree about depth and nodes. */
  lemma VerdictsAgree(v: Value, digitLimit: nat)
    requires IsPlain(v)
    ensures var check, load := Check(v, 1, Budget(0, 0), digitLimit), Load(v, 1, 0);
            && (check.Ok? ==> load == Ok(check.value.nodes))
            && (check == Err(DepthOrNodes) ==> load == Err(DepthOrNodes))
            && (load == Err(DepthOrNodes) ==> check.Err?)
            && (load.Ok? ==> (check.Ok? <==> IsEncodable(v, digitLimit) && Lower(v) <= MAX_DOCUMENT_BYTES))
  {
    hide Check, Load, IsShallow, IsEncodable, Nodes, Lower, Size;
    LoadIsExact(v, 1, 0);
    CheckIsExact(v, 1, Budget(0, 0), digitLimit);
    if Check(v, 1, Budget(0, 0), digitLimit).Err? {
      RefusalIsJustified(v, 1, Budget(0, 0), digitLimit);
    }
  }

  // ---- The shared budget, updated in place --------------------------------------------------------------------

  class SharedBudget {
    var nodes: nat
    var bytes: nat

    function State(): Budget
      reads this
    {
      Budget(nodes, bytes)
    }

    constructor ()
      ensures State() == Budget(0, 0)
    {
      nodes, bytes := 0, 0;
    }

    method CheckValue(v: Value, depth: nat, digitLimit: nat) returns (refusal: Option<Refusal>)
      modifies this
      ensures var expected := Check(v, depth, old(State()), digitLimit);
              if refusal.None? then expected == Ok(State()) else expected == Err(refusal.value)
      decreases v, 1
    {
      nodes := nodes + 1;
      if depth > MAX_DOCUMENT_DEPTH || nodes > MAX_DOCUMENT_NODES {
        return Some(DepthOrNodes);
      }
      if v.Dict? {
        refusal := CheckMembers(v, depth, digitLimit);
      } else if v.List? {
        refusal := CheckElements(v, depth, digitLimit);
      } else {
        var size := CheckScalar(v, digitLimit);
        if size.Err? {
          return Some(size.error);
        }
        bytes := bytes + size.value;
        if bytes > MAX_DOCUMENT_BYTES {
          return Some(DocumentTooLong);
        }
        return None;
      }
    }

    method CheckElements(v: Value, depth: nat, digitLimit: nat) returns (refusal: Option<Refusal>)
      requires v.List?
      modifies this
      ensures var expected := CheckItems(v, |v.items|, depth, old(State()), digitLimit);
              if refusal.None? then expected == Ok(State()) else expected == Err(refusal.value)
      decreases v, 0
    {
      hide Check;
      ghost var entry := State();
      for i := 0 to |v.items|
        invariant CheckItems(v, i, depth, entry, digitLimit) == Ok(State())
      {
        refusal := CheckValue(v.items[i], depth + 1, digitLimit);
        if refusal.Some? {
          ItemsStayRefused(v, i + 1, |v.items|, depth, entry, digitLimit);
          return;
        }
      }
      return None;
    }

    method CheckMembers(v: Value, depth: nat, digitLimit: nat) returns (refusal: Option<Refusal>)
      requires v.Dict?
      modifies this
      ensures var expected := CheckEntries(v, |v.entries|, depth, old(State()), digitLimit);
              if refusal.None? then expected == Ok(State()) else expected == Err(refusal.value)
      decreases v, 0
    {
      hide Check, CheckText, CheckScalar;
      ghost var entry := State();
      for i := 0 to |v.entries|
        invariant CheckEntries(v, i, depth, entry, digitLimit) == Ok(State())
      {
        refusal := CheckName(v.entries[i].key, depth + 1, digitLimit);
        if refusal.None? {
          refusal := CheckValue(v.entries[i].value, depth + 1, digitLimit);
        }
        if refusal.Some? {
          EntriesStayRefused(v, i + 1, |v.entries|, depth, entry, digitLimit);
          return;
        }
      }
      return None;
    }

    method CheckName(key: Key, depth: nat, digitLimit: nat) returns (refusal: Option<Refusal>)
      modifies this
      ensures var expected := CheckKey(key, depth, old(State()), digitLimit);
              if refusal.None? then expected == Ok(State()) else expected == Err(refusal.value)
    {
      hide TextSize;
      if key.NotText? {
        return Some(InvalidType);
      }
      var size := CheckText(key.name);
      if size.Err? {
        return Some(size.error);
      }
      nodes := nodes + 1;
      if depth > MAX_DOCUMENT_DEPTH || nodes > MAX_DOCUMENT_NODES {
        return Some(DepthOrNodes);
      }
      bytes := bytes + size.value;
      if bytes > MAX_DOCUMENT_BYTES {
        return Some(DocumentTooLong);
      }
      return None;
    }
  }

  lemma {:induction false} ItemsStayRefused(v: Value, i: nat, n: nat, depth: nat, b: Budget, digitLimit: nat)
    requires v.List? && i <= n <= |v.items| && CheckItems(v, i, depth, b, digitLimit).Err?
    ensures CheckItems(v, n, depth, b, digitLimit) == CheckItems(v, i, depth, b, digitLimit)
  {
    hide Check;
    if i < n {
      ItemsStayRefused(v, i, n - 1, depth, b, digitLimit);
    }
  }

  lemma {:induction false} EntriesStayRefused(v: Value, i: nat, n: nat, depth: nat, b: Budget, digitLimit: nat)
    requires v.Dict? && i <= n <= |v.entries| && CheckEntries(v, i, depth, b, digitLimit).Err?
    ensures CheckEntries(v, n, depth, b, digitLimit) == CheckEntries(v, i, depth, b, digitLimit)
  {
    hide Check, CheckKey;
    if i < n {
      EntriesStayRefused(v, i, n - 1, depth, b, digitLimit);
    }
  }
}

/** The path in a diagnostic, cut off behind the last member that fits. */
module DiagnosticPaths {
  import opened Outcomes
  import opened Texts
  import opened CanonicalJson

  datatype Step = Member(name: Text) | Element(index: nat)

  /** Which strings the language takes for identifiers. */
  type IsIdentifier = Text -> bool

  const PIECE := 4096

  function HexDigit(n: nat): CodePoint
    requires n < 16
  {
    if n < 10 then 0x30 + n else 0x61 + n - 10
  }

  /** A UTF-16 code unit as an escape of six ASCII characters. */
  function UnitEscape(u: nat): Text
    requires u < 0x10000
  {
    [0x5C, 0x75, HexDigit(u / 0x1000), HexDigit(u / 0x100 % 0x10), HexDigit(u / 0x10 % 0x10), HexDigit(u % 0x10)]
  }

  function Escape(c: CodePoint): Text {
    if c == 0x5C || c == 0x22 then [0x5C, c]
    else if c == 0x08 then [0x5C, 0x62]
    else if c == 0x09 then [0x5C, 0x74]
    else if c == 0x0A then [0x5C, 0x6E]
    else if c == 0x0C then [0x5C, 0x66]
    else if c == 0x0D then [0x5C, 0x72]
    else if 0x20 <= c <= 0x7E then [c]
    else if c < 0x10000 then UnitEscape(c)
    else UnitEscape(0xD800 + (c - 0x10000) / 0x400) + UnitEscape(0xDC00 + (c - 0x10000) % 0x400)
  }

  function Escaped(t: Text): Text
    decreases |t|
  {
    if t == [] then [] else Escaped(t[..|t| - 1]) + Escape(t[|t| - 1])
  }

  function Decimal(n: nat): Text {
    if n < 10 then [0x30 + n] else Decimal(n / 10) + [0x30 + n % 10]
  }

  function Rendered(step: Step, isIdentifier: IsIdentifier): Text {
    match step
    case Element(i) => [0x5B] + Decimal(i) + [0x5D]
    case Member(name) => if isIdentifier(name) then [0x2E] + name else [0x5B, 0x22] + Escaped(name) + [0x22, 0x5D]
  }

  function RenderedPath(path: seq<Step>, isIdentifier: IsIdentifier): Text
    decreases |path|
  {
    if path == [] then [0x24]
    else RenderedPath(path[..|path| - 1], isIdentifier) + Rendered(path[|path| - 1], isIdentifier)
  }

  predicate IsAscii(t: Text) {
    forall i :: 0 <= i < |t| ==> t[i] < 0x80
  }

  lemma {:induction false} AsciiSize(t: Text)
    requires IsAscii(t)
    ensures TextSize(t) == |t|
    decreases |t|
  {
    if t != [] {
      AsciiSize(t[..|t| - 1]);
    }
  }

  lemma {:induction false} EscapedIsAscii(t: Text)
    ensures IsAscii(Escaped(t))
    decreases |t|
  {
    if t != [] {
      EscapedIsAscii(t[..|t| - 1]);
      EscapeIsAscii(t[|t| - 1]);
      hide Escape;
    }
  }

  lemma EscapeIsAscii(c: CodePoint)
    ensures IsAscii(Escape(c))
  {
  }

  lemma {:induction false} DecimalIsAscii(n: nat)
    ensures IsAscii(Decimal(n))
  {
    if n >= 10 {
      DecimalIsAscii(n / 10);
    }
  }

  /** Escaping is compositional, so a string can be escaped piece by piece. */
  lemma {:induction false} EscapedComposes(a: Text, b: Text)
    ensures Escaped(a + b) == Escaped(a) + Escaped(b)
    decreases |b|
  {
    hide Escape;
    if b == [] {
      assert a + b == a;
    } else {
      assert (a + b)[..|a + b| - 1] == a + b[..|b| - 1];
      EscapedComposes(a, b[..|b| - 1]);
    }
  }

  // ---- Reading an escaped string back -------------------------------------------------------

  /** The UTF-16 code units of a string; Python keeps lone surrogates as they are. */
  function Units(t: Text): seq<nat>
    decreases |t|
  {
    if t == [] then [] else UnitsOf(t[0]) + Units(t[1..])
  }

  function UnitsOf(c: CodePoint): seq<nat> {
    if c < 0x10000 then [c] else [0xD800 + (c - 0x10000) / 0x400, 0xDC00 + (c - 0x10000) % 0x400]
  }

  function HexValue(c: CodePoint): nat {
    if 0x30 <= c <= 0x39 then c - 0x30 else if 0x61 <= c <= 0x66 then c - 0x61 + 10 else 0
  }

  /** A reader of JSON strings, which yields code units. */
  function Read(s: Text): seq<nat>
    decreases |s|
  {
    if s == [] then []
    else if s[0] != 0x5C then [s[0]] + Read(s[1..])
    else if |s| >= 6 && s[1] == 0x75 then
      [((HexValue(s[2]) * 16 + HexValue(s[3])) * 16 + HexValue(s[4])) * 16 + HexValue(s[5])] + Read(s[6..])
    else if |s| >= 2 then [ShortEscape(s[1])] + Read(s[2..])
    else []
  }

  function ShortEscape(c: CodePoint): nat {
    if c == 0x62 then 0x08
    else if c == 0x74 then 0x09
    else if c == 0x6E then 0x0A
    else if c == 0x66 then 0x0C
    else if c == 0x72 then 0x0D
    else c
  }

  lemma HexIsRead(n: nat)
    requires n < 16
    ensures HexValue(HexDigit(n)) == n
  {
  }

  lemma UnitIsRead(u: nat, rest: Text)
    requires u < 0x10000
    ensures Read(UnitEscape(u) + rest) == [u] + Read(rest)
  {
    var s := UnitEscape(u) + rest;
    HexIsRead(u / 0x1000);
    HexIsRead(u / 0x100 % 0x10);
    HexIsRead(u / 0x10 % 0x10);
    HexIsRead(u % 0x10);
    HexDigitsMakeUp(u);
    hide HexDigit, HexValue;
    assert s[6..] == rest;
  }

  lemma HexDigitsMakeUp(u: nat)
    requires u < 0x10000
    ensures ((u / 0x1000 * 16 + u / 0x100 % 0x10) * 16 + u / 0x10 % 0x10) * 16 + u % 0x10 == u
  {
    assert u / 0x100 == u / 0x1000 * 16 + u / 0x100 % 0x10;
    assert u / 0x10 == u / 0x100 * 16 + u / 0x10 % 0x10;
  }

  lemma CharacterIsRead(c: CodePoint, rest: Text)
    ensures Read(Escape(c) + rest) == UnitsOf(c) + Read(rest)
  {
    hide UnitEscape;
    if c >= 0x10000 {
      var high, low := 0xD800 + (c - 0x10000) / 0x400, 0xDC00 + (c - 0x10000) % 0x400;
      UnitIsRead(high, UnitEscape(low) + rest);
      UnitIsRead(low, rest);
      assert Escape(c) + rest == UnitEscape(high) + (UnitEscape(low) + rest);
    } else if Escape(c) == UnitEscape(c) {
      UnitIsRead(c, rest);
    } else {
      ShortIsRead(c, rest);
    }
  }

  lemma ShortIsRead(c: CodePoint, rest: Text)
    requires c < 0x10000 && Escape(c) != UnitEscape(c)
    ensures Read(Escape(c) + rest) == UnitsOf(c) + Read(rest)
  {
    hide UnitEscape;
    if |Escape(c)| == 2 {
      assert (Escape(c) + rest)[2..] == rest;
    } else {
      assert (Escape(c) + rest)[1..] == rest;
    }
  }

  /** Reading an escaped string yields exactly the code units of the string. */
  lemma {:induction false} EscapedIsRead(t: Text)
    ensures Read(Escaped(t)) == Units(t)
    decreases |t|
  {
    hide Escape, UnitsOf, Read;
    if t == [] {
      NothingIsRead();
    } else {
      EscapedComposes([t[0]], t[1..]);
      assert t == [t[0]] + t[1..];
      assert Escaped([t[0]]) == Escape(t[0]) by {
        assert [t[0]][..0] == [];
      }
      CharacterIsRead(t[0], Escaped(t[1..]));
      EscapedIsRead(t[1..]);
    }
  }

  lemma NothingIsRead()
    ensures Read([]) == []
  {
  }

  /** Two strings are escaped alike only if they have the same code units. */
  lemma EscapedAlikeExactly(a: Text, b: Text)
    ensures Escaped(a) == Escaped(b) ==> Units(a) == Units(b)
  {
    EscapedIsRead(a);
    EscapedIsRead(b);
  }

  function DecimalValue(t: Text): int
    decreases |t|
  {
    if t == [] then 0 else 10 * DecimalValue(t[..|t| - 1]) + t[|t| - 1] - 0x30
  }

  /** An index is written as its decimal digits. */
  lemma {:induction false} DecimalIsRead(n: nat)
    ensures DecimalValue(Decimal(n)) == n
  {
    if n >= 10 {
      DecimalIsRead(n / 10);
      assert Decimal(n)[..|Decimal(n)| - 1] == Decimal(n / 10);
    } else {
      assert Decimal(n)[..0] == [];
    }
  }

  /** Sizes of what a member is written as: ASCII but for the identifier itself. */
  lemma RenderedSize(step: Step, isIdentifier: IsIdentifier)
    ensures TextSize(Rendered(step, isIdentifier)) ==
              if step.Element? then 2 + |Decimal(step.index)|
              else if isIdentifier(step.name) then 1 + TextSize(step.name) else 4 + |Escaped(step.name)|
  {
    hide Escape;
    if step.Element? {
      DecimalIsAscii(step.index);
      AsciiSize(Rendered(step, isIdentifier));
    } else if isIdentifier(step.name) {
      TextSizeAdds([0x2E], step.name);
      AsciiSize([0x2E]);
    } else {
      EscapedIsAscii(step.name);
      AsciiSize(Rendered(step, isIdentifier));
    }
  }

  /** Writes the member if it fits; otherwise a part of it may have been written. */
  method WriteMember(output: Text, name: Text, remaining: nat, isIdentifier: IsIdentifier)
    returns (written: Text, size: Option<nat>)
    ensures size.Some? <==> TextSize(Rendered(Member(name), isIdentifier)) <= remaining
    ensures size.Some? ==>
              written == output + Rendered(Member(name), isIdentifier) && size.value == TextSize(Rendered(Member(name), isIdentifier))
    ensures output <= written
  {
    hide Escape, TextSize, Escaped;
    RenderedSize(Member(name), isIdentifier);
    if isIdentifier(name) {
      var needed := 1 + TextSize(name);
      if needed > remaining {
        return output, None;
      }
      return output + ([0x2E] + name), Some(needed);
    }
    if remaining < 4 {
      return output, None;
    }
    written := output + [0x5B, 0x22];
    var total := 4;
    var offset := 0;
    NothingEscaped();
    assert name[..0] == [];
    while offset < |name|
      invariant 0 <= offset <= |name| && total == 4 + |Escaped(name[..offset])| <= remaining
      invariant written == output + [0x5B, 0x22] + Escaped(name[..offset])
    {
      var next := if offset + PIECE <= |name| then offset + PIECE else |name|;
      var escaped := Escaped(name[offset..next]);
      EscapedComposes(name[..offset], name[offset..next]);
      assert name[..offset] + name[offset..next] == name[..next];
      total := total + |escaped|;
      if total > remaining {
        EscapedComposes(name[..next], name[next..]);
        assert name[..next] + name[next..] == name;
        return written, None;
      }
      written := written + escaped;
      offset := next;
    }
    assert name[..offset] == name;
    assert written + [0x22, 0x5D] == output + ([0x5B, 0x22] + Escaped(name) + [0x22, 0x5D]);
    return written + [0x22, 0x5D], Some(total);
  }

  lemma NothingEscaped()
    ensures Escaped([]) == []
  {
  }

  /** The longest run of complete members, from the root, that fits the bound. */
  ghost predicate IsLongestRun(path: seq<Step>, isIdentifier: IsIdentifier, output: Text) {
    exists k :: 0 <= k <= |path| && output == RenderedPath(path[..k], isIdentifier) && TextSize(output) <= MAX_DOCUMENT_BYTES &&
                forall j :: k < j <= |path| ==> TextSize(RenderedPath(path[..j], isIdentifier)) > MAX_DOCUMENT_BYTES
  }

  lemma {:induction false} LongerPathsAreLonger(path: seq<Step>, isIdentifier: IsIdentifier, i: nat, j: nat)
    requires i <= j <= |path|
    ensures TextSize(RenderedPath(path[..i], isIdentifier)) <= TextSize(RenderedPath(path[..j], isIdentifier))
    decreases j
  {
    hide Rendered, TextSize;
    if i < j {
      LongerPathsAreLonger(path, isIdentifier, i, j - 1);
      PathExtends(path, isIdentifier, j - 1);
    }
  }

  lemma PathExtends(path: seq<Step>, isIdentifier: IsIdentifier, i: nat)
    requires i < |path|
    ensures RenderedPath(path[..i + 1], isIdentifier) == RenderedPath(path[..i], isIdentifier) + Rendered(path[i], isIdentifier)
    ensures TextSize(RenderedPath(path[..i + 1], isIdentifier)) ==
              TextSize(RenderedPath(path[..i], isIdentifier)) + TextSize(Rendered(path[i], isIdentifier))
  {
    hide Rendered, TextSize;
    var longer := path[..i + 1];
    assert longer[..|longer| - 1] == path[..i] && longer[|longer| - 1] == path[i];
    TextSizeAdds(RenderedPath(path[..i], isIdentifier), Rendered(path[i], isIdentifier));
  }

  method RenderPath(path: seq<Step>, isIdentifier: IsIdentifier) returns (output: Text)
    ensures IsLongestRun(path, isIdentifier, output)
  {
    hide Rendered, TextSize;
    output := [0x24];
    var remaining: nat := MAX_DOCUMENT_BYTES - 1;
    RootIsRendered(path, isIdentifier);
    var i := 0;
    while i < |path|
      invariant 0 <= i <= |path| && output == RenderedPath(path[..i], isIdentifier)
      invariant TextSize(output) + remaining == MAX_DOCUMENT_BYTES
    {
      var checkpoint := |output|;
      PathExtends(path, isIdentifier, i);
      var size: Option<nat>;
      if path[i].Member? {
        output, size := WriteMember(output, path[i].name, remaining, isIdentifier);
      } else {
        output, size := WriteElement(output, path[i].index, remaining, isIdentifier);
      }
      if size.None? {
        output := output[..checkpoint];
        forall j | i < j <= |path| ensures TextSize(RenderedPath(path[..j], isIdentifier)) > MAX_DOCUMENT_BYTES {
          LongerPathsAreLonger(path, isIdentifier, i + 1, j);
        }
        assert output == RenderedPath(path[..i], isIdentifier);
        return;
      }
      remaining := remaining - size.value;
      i := i + 1;
    }
    assert path[..i] == path;
  }

  lemma RootIsRendered(path: seq<Step>, isIdentifier: IsIdentifier)
    ensures RenderedPath(path[..0], isIdentifier) == [0x24] && TextSize([0x24]) == 1
  {
    AsciiSize([0x24]);
  }

  method WriteElement(output: Text, index: nat, remaining: nat, isIdentifier: IsIdentifier) returns (written: Text, size: Option<nat>)
    ensures size.Some? <==> TextSize(Rendered(Element(index), isIdentifier)) <= remaining
    ensures size.Some? ==>
              written == output + Rendered(Element(index), isIdentifier) && size.value == TextSize(Rendered(Element(index), isIdentifier))
    ensures output <= written
  {
    hide TextSize, Decimal;
    RenderedSize(Element(index), isIdentifier);
    var suffix := [0x5B] + Decimal(index) + [0x5D];
    if |suffix| > remaining {
      return output, None;
    }
    return output + suffix, Some(|suffix|);
  }
}
