/** What NewStoreSpec makes of the output of StoreSpec.String. */
module StoreSpecRoundTrip {
  import opened Common
  import opened Text
  import opened StoreSpec
  import PebbleOptions
  import Sorting

  // ---------- what the parser lets through ----------

  predicate SizeIn(size: Size, minBytes: int, minPercent: real, maxPercent: real) {
    || (size.percent == 0.0 && size.bytes >= minBytes)
    || (size.bytes == 0 && minPercent <= size.percent <= maxPercent)
  }

  predicate PlainText(s: string) { ',' !in s }

  predicate AttrsOk(attrs: seq<string>) {
    && attrs != [""] && Distinct(attrs) && Sorting.SortedBy(attrs, Leq)
    && forall a :: a in attrs ==> ',' !in a && ':' !in a
  }

  predicate PebbleText(fmt: Format, pebble: string) {
    PlainText(pebble) && PebbleOptions.TidyText(pebble) && (pebble == "" || fmt.pebbleOk(pebble))
  }

  predicate RateOk(rate: Rate) {
    && DiskOk(rate) && (rate.disk == "" ==> rate == NO_RATE)
  }

  /** The invariant of the loop over the fields. */
  predicate FieldsOk(fmt: Format, spec: Spec) {
    && PlainText(spec.path) && PlainText(spec.rocksdb)
    && (spec.size == NO_SIZE || SizeIn(spec.size, MINIMUM_STORE_SIZE, 1.0, 100.0))
    && (spec.ballast.Some? ==> SizeIn(spec.ballast.value, 0, 0.0, 50.0))
    && AttrsOk(spec.attrs)
    && PebbleText(fmt, spec.pebble)
    && RateOk(spec.rate)
  }

  lemma SizesFit(fmt: Format, value: string, minBytes: int, minPercent: real, maxPercent: real)
    requires minPercent >= 0.0
    ensures var r := NewSizeSpec(fmt, value, minBytes, minPercent, maxPercent);
      r.Some? ==> SizeIn(r.value, minBytes, minPercent, maxPercent)
  {}

  lemma AttrsFit(value: string)
    requires value != "" && PlainText(value)
    ensures Attrs(value).Some? ==> AttrsOk(Attrs(value).value)
  {
    var parts := Split(value, ':');
    if Distinct(parts) {
      JoinSplit(value, ':');
      LeqIsOrder();
      var attrs := Sorting.Sort(parts, Leq);
      Sorting.SortSorts(parts, Leq);
      Sorting.SameElements(parts, Leq);
      DistinctBag(parts);
      BagDistinct(attrs, set p | p in parts);
      Sorting.SameSize(parts, attrs);
      assert parts[0] in attrs;
      assert |parts| == 1 ==> Join(parts, ':') == parts[0];
    }
  }

  lemma BagDistinct(parts: seq<string>, elements: set<string>)
    requires multiset(parts) == multiset(elements)
    ensures Distinct(parts)
  {
    forall i, j | 0 <= i < j < |parts| ensures parts[i] != parts[j] {
      Sorting.Repeated(parts, i, j);
      assert multiset(elements)[parts[i]] <= 1;
    }
  }

  lemma PebbleFits(fmt: Format, value: string)
    requires PlainText(value)
    ensures PebbleField(fmt, value).Parsed? ==> PebbleText(fmt, PebbleField(fmt, value).value)
  {
    var text := PebbleOptions.Trim(value);
    if PebbleOptions.Squeeze(false, text).Some? {
      PebbleOptions.SqueezeKeeps(false, text);
      PebbleOptions.AcceptedTidy(value);
      PebbleOptions.TrimStarts(value);
    }
  }

  predicate DiskOk(rate: Rate) {
    forall c :: c in rate.disk ==> c != ',' && c != ':' && c != '='
  }

  lemma {:induction false} RateFieldsFit(fmt: Format, st: RateState, parts: seq<string>)
    requires DiskOk(st.rate)
    requires forall p, c :: p in parts && c in p ==> c != ',' && c != ':'
    ensures RateFields(fmt, st, parts).Some? ==>
      DiskOk(RateFields(fmt, st, parts).value.rate)
    decreases |parts|
  {
    if parts != [] {
      var next := RateField(fmt, st, parts[0]);
      if next.Some? {
        assert parts[0] in parts;
        JoinSplit(parts[0], '=');
        assert forall p :: p in parts[1..] ==> p in parts;
        assert DiskOk(next.value.rate);
        RateFieldsFit(fmt, next.value, parts[1..]);
      }
    }
  }

  lemma RateFits(fmt: Format, value: string)
    requires PlainText(value)
    ensures NewRate(fmt, value).Some? ==> RateOk(NewRate(fmt, value).value)
  {
    JoinSplit(value, ':');
    RateFieldsFit(fmt, RateState(NO_RATE, {}), Split(value, ':'));
  }

  lemma FieldFits(fmt: Format, spec: Spec, kind: Kind, value: string)
    requires FieldsOk(fmt, spec) && value != "" && PlainText(value)
    ensures SetField(fmt, spec, kind, value).Parsed? ==> FieldsOk(fmt, SetField(fmt, spec, kind, value).value)
  {
    match kind
    case StoreSize => SizesFit(fmt, value, MINIMUM_STORE_SIZE, 1.0, 100.0);
    case BallastSize => SizesFit(fmt, value, 0, 0.0, 50.0);
    case Attributes => AttrsFit(value);
    case Pebble => PebbleFits(fmt, value);
    case ProvisionedRate => RateFits(fmt, value);
    case _ =>
  }

  lemma PartFits(fmt: Format, st: State, part: string)
    requires FieldsOk(fmt, st.spec) && PlainText(part)
    ensures ParseField(fmt, st, part).Parsed? ==> FieldsOk(fmt, ParseField(fmt, st, part).value.spec)
  {
    var (name, value) := FieldOf(part);
    assert forall c :: c in value ==> c in part;
    if value != "" {
      FieldFits(fmt, st.spec, KindOf(name), value);
    }
  }

  lemma {:induction false} FieldsFit(fmt: Format, st: State, parts: seq<string>)
    requires FieldsOk(fmt, st.spec) && forall p :: p in parts ==> PlainText(p)
    ensures ParseFields(fmt, st, parts).Parsed? ==> FieldsOk(fmt, ParseFields(fmt, st, parts).value.spec)
    decreases |parts|
  {
    if parts != [] {
      var next := ParseField(fmt, st, parts[0]);
      assert parts[0] in parts && forall p :: p in parts[1..] ==> p in parts;
      PartFits(fmt, st, parts[0]);
      if next.Parsed? {
        FieldsFit(fmt, next.value, parts[1..]);
      }
    }
  }

  lemma BlankFits(fmt: Format)
    ensures FieldsOk(fmt, BLANK)
  {}

  /** Whatever text was read, an accepted specification is complete and its fields are fit to
      be printed. */
  lemma AcceptedIsFit(fmt: Format, value: string)
    requires ParseSpec(fmt, value).Parsed?
    ensures FieldsOk(fmt, ParseSpec(fmt, value).value) && Complete(ParseSpec(fmt, value).value)
  {
    JoinSplit(value, ',');
    BlankFits(fmt);
    forall p | p in Split(value, ',') ensures PlainText(p) {
    }
    FieldsFit(fmt, START, Split(value, ','));
  }

  // ---------- sizes that print exactly ----------

  predicate BytesPrintable(fmt: Format, n: int) {
    var text := fmt.iBytes(n);
    && fmt.parseBytes(text) == Some(n) && !IsFraction(text) && text != ""
    && forall c :: c in text ==> c != ',' && c != ':' && c != '='
  }

  predicate PercentPrintable(fmt: Format, p: real) {
    IsFraction(fmt.ftoa(p) + "%") && fmt.parseFloat(fmt.ftoa(p)) == Some(p)
  }

  predicate SizePrintable(fmt: Format, size: Size) {
    && (size.bytes > 0 ==> BytesPrintable(fmt, size.bytes))
    && (size.percent > 0.0 ==> PercentPrintable(fmt, size.percent))
  }

  /** Every number in the specification survives its text form. */
  predicate Printable(fmt: Format, spec: Spec) {
    && SizePrintable(fmt, spec.size)
    && (spec.ballast.Some? ==> SizePrintable(fmt, spec.ballast.value))
    && (spec.rate.bandwidth > 0 ==> BytesPrintable(fmt, spec.rate.bandwidth))
  }

  predicate FractionChar(c: char) { IsDigit(c) || c == '.' || c == '%' || c == '-' }

  lemma SplitAt(s: string, i: nat)
    requires i < |s|
    ensures forall c :: c in s <==> c in s[..i] || c == s[i] || c in s[i + 1..]
  {
    assert s == s[..i] + [s[i]] + s[i + 1..];
  }

  lemma NumberChars(number: string)
    requires var dot := IndexOf(number, '.');
      if dot == -1 then AllDigits(number) else AllDigits(number[..dot]) && AllDigits(number[dot + 1..])
    ensures forall c :: c in number ==> FractionChar(c)
  {
    var dot := IndexOf(number, '.');
    if dot != -1 {
      SplitAt(number, dot);
    }
  }

  lemma PercentageChars(s: string)
    requires IsPercentage(s)
    ensures PlainText(s)
  {
    var n := |s| - 1;
    NumberChars(s[..n]);
    assert s == s[..n] + [s[n]];
  }

  lemma DecimalChars(s: string)
    requires IsDecimal(s)
    ensures PlainText(s)
  {
    NumberChars(s);
  }

  lemma FractionChars(s: string)
    requires IsFraction(s)
    ensures PlainText(s)
  {
    var unsigned := if s != "" && s[0] == '-' then s[1..] else s;
    if IsDecimal(unsigned) {
      DecimalChars(unsigned);
    } else {
      PercentageChars(unsigned);
    }
    assert s == unsigned || s == ['-'] + unsigned;
  }

  function SizeText(fmt: Format, size: Size): string {
    if size.bytes > 0 then fmt.iBytes(size.bytes) else fmt.ftoa(size.percent) + "%"
  }

  /** A size in range prints as one field, and that field reads back as the size. */
  lemma SizeReads(fmt: Format, name: string, size: Size, minBytes: nat, minPercent: real, maxPercent: real)
    requires SizeIn(size, minBytes, minPercent, maxPercent) && minPercent >= 0.0
    requires size != NO_SIZE && SizePrintable(fmt, size)
    ensures SizeParts(fmt, name, size) == [Field(name, SizeText(fmt, size))]
    ensures NewSizeSpec(fmt, SizeText(fmt, size), minBytes, minPercent, maxPercent) == Some(size)
    ensures SizeText(fmt, size) != "" && PlainText(SizeText(fmt, size))
  {
    if size.bytes <= 0 {
      var number := fmt.ftoa(size.percent);
      var text := number + "%";
      FractionChars(text);
      assert text[..|text| - 1] == number;
    }
  }

  // ---------- reading one field back ----------

  /** The names that String prints. */
  predicate Name(name: string) {
    name in {"path", "type", "size", "ballast-size", "attrs", "pebble", "provisioned-rate"}
  }

  lemma Kinds()
    ensures KindOf("path") == Path && KindOf("type") == Type && KindOf("size") == StoreSize
    ensures KindOf("ballast-size") == BallastSize && KindOf("attrs") == Attributes && KindOf("pebble") == Pebble
    ensures KindOf("provisioned-rate") == ProvisionedRate && KindOf("rocksdb") == Rocksdb
  {}

  lemma NameStays(name: string)
    requires Name(name)
    ensures Lower(name) == name && '=' !in name && name != ""
  {
    assert forall i :: 0 <= i < |name| ==> LowerChar(name[i]) == name[i] && name[i] != '=';
  }

  lemma FieldReads(fmt: Format, st: State, name: string, value: string)
    requires Name(name) && value != "" && name !in st.used
    ensures ParseField(fmt, st, Field(name, value))
      == var spec := SetField(fmt, st.spec, KindOf(name), value);
         if spec.Parsed? then Parsed(State(spec.value, st.used + {name}))
         else if spec.Hangs? then Hangs
         else Rejected
  {
    NameStays(name);
    IndexAfter(name, '=', value);
    assert name + ['='] + value == Field(name, value);
  }

  lemma {:induction false} ParseAppend(fmt: Format, st: State, a: seq<string>, b: seq<string>)
    ensures ParseFields(fmt, st, a + b)
      == var first := ParseFields(fmt, st, a);
         if first.Parsed? then ParseFields(fmt, first.value, b) else first
    decreases |a|
  {
    if a == [] {
      assert a + b == b;
    } else {
      assert (a + b)[1..] == a[1..] + b && (a + b)[0] == a[0];
      var next := ParseField(fmt, st, a[0]);
      if next.Parsed? {
        ParseAppend(fmt, next.value, a[1..], b);
      }
    }
  }

  /** An optional field turns the specification so far into `after`. */
  lemma PartReads(fmt: Format, st: State, parts: seq<string>, shown: bool, name: string, value: string, after: Spec)
    requires Name(name)
    requires parts == When(shown, name, value)
    requires if shown then name !in st.used && value != "" && SetField(fmt, st.spec, KindOf(name), value) == Parsed(after)
             else after == st.spec
    ensures ParseFields(fmt, st, parts) == Parsed(State(after, if shown then st.used + {name} else st.used))
  {
    if shown {
      FieldReads(fmt, st, name, value);
      assert ParseFields(fmt, State(after, st.used + {name}), parts[1..]) == Parsed(State(after, st.used + {name}));
    }
  }

  lemma AttrsRead(attrs: seq<string>)
    requires AttrsOk(attrs) && attrs != []
    ensures Attrs(Join(attrs, ':')) == Some(attrs)
    ensures Join(attrs, ':') != "" && PlainText(Join(attrs, ':'))
  {
    SplitJoin(attrs, ':');
    Sorting.SortedStays(attrs, Leq);
    JoinPlain(attrs);
    assert |attrs| == 1 ==> attrs == [attrs[0]];
  }

  lemma {:induction false} JoinPlain(parts: seq<string>)
    requires forall p :: p in parts ==> PlainText(p)
    ensures PlainText(Join(parts, ':'))
    decreases |parts|
  {
    if parts != [] {
      assert parts[0] in parts && forall p :: p in parts[1..] ==> p in parts;
      JoinPlain(parts[1..]);
    }
  }

  /** What comes back for the rate: a negative bandwidth is not printed. */
  function PrintedRate(rate: Rate): Rate {
    if rate.bandwidth > 0 then rate else rate.(bandwidth := 0)
  }

  lemma PairReads(name: string, value: string)
    requires '=' !in name && '=' !in value
    ensures Split(Field(name, value), '=') == [name, value]
  {
    SplitJoin([name, value], '=');
    assert Join([name, value], '=') == name + ['='] + Join([value], '=');
    assert Join([name, value], '=') == Field(name, value);
  }

  lemma DiskReads(fmt: Format, disk: string)
    requires '=' !in disk && disk != ""
    ensures RateField(fmt, RateState(NO_RATE, {}), Field("disk-name", disk))
      == Some(RateState(Rate(disk, 0), {"disk-name"}))
  {
    PairReads("disk-name", disk);
    assert {} + {"disk-name"} == {"disk-name"};
  }

  lemma BandwidthReads(fmt: Format, st: RateState, n: int)
    requires n > 0 && BytesPrintable(fmt, n) && "bandwidth" !in st.used
    ensures RateField(fmt, st, Field("bandwidth", fmt.iBytes(n) + "/s"))
      == Some(RateState(st.rate.(bandwidth := n), st.used + {"bandwidth"}))
  {
    var value := fmt.iBytes(n) + "/s";
    PairReads("bandwidth", value);
    assert value[..|value| - 2] == fmt.iBytes(n) && value[|value| - 2..] == "/s";
  }

  lemma OneRateField(fmt: Format, st: RateState, a: string)
    ensures RateFields(fmt, st, [a]) == RateField(fmt, st, a)
  {
    assert [a][1..] == [];
  }

  lemma TwoRateFields(fmt: Format, st: RateState, a: string, b: string)
    requires RateField(fmt, st, a).Some?
    ensures RateFields(fmt, st, [a, b]) == RateField(fmt, RateField(fmt, st, a).value, b)
  {
    assert [a, b][1..] == [b];
    OneRateField(fmt, RateField(fmt, st, a).value, b);
  }

  lemma DiskOnlyReads(fmt: Format, rate: Rate)
    requires RateOk(rate) && rate.disk != "" && rate.bandwidth <= 0
    ensures NewRate(fmt, RateText(fmt, rate)) == Some(rate.(bandwidth := 0))
  {
    var disk := Field("disk-name", rate.disk);
    assert RateText(fmt, rate) == disk;
    assert ':' !in disk;
    SplitJoin([disk], ':');
    DiskReads(fmt, rate.disk);
    OneRateField(fmt, RateState(NO_RATE, {}), disk);
  }

  lemma JoinTwo(a: string, b: string, c: char)
    ensures Join([a, b], c) == a + [c] + b
  {
    assert [a, b][1..] == [b];
  }

  lemma DiskAndBandwidthRead(fmt: Format, rate: Rate)
    requires RateOk(rate) && rate.disk != "" && rate.bandwidth > 0 && BytesPrintable(fmt, rate.bandwidth)
    ensures NewRate(fmt, RateText(fmt, rate)) == Some(rate)
  {
    var disk := Field("disk-name", rate.disk);
    var bandwidth := Field("bandwidth", fmt.iBytes(rate.bandwidth) + "/s");
    JoinTwo(disk, bandwidth, ':');
    assert RateText(fmt, rate) == Join([disk, bandwidth], ':');
    assert ':' !in disk && ':' !in bandwidth;
    SplitJoin([disk, bandwidth], ':');
    DiskReads(fmt, rate.disk);
    BandwidthReads(fmt, RateState(Rate(rate.disk, 0), {"disk-name"}), rate.bandwidth);
    TwoRateFields(fmt, RateState(NO_RATE, {}), disk, bandwidth);
  }

  lemma RatePlain(fmt: Format, rate: Rate)
    requires RateOk(rate) && (rate.bandwidth > 0 ==> BytesPrintable(fmt, rate.bandwidth))
    ensures RateText(fmt, rate) != "" && PlainText(RateText(fmt, rate))
  {}

  lemma RateReads(fmt: Format, rate: Rate)
    requires RateOk(rate) && rate.disk != "" && (rate.bandwidth > 0 ==> BytesPrintable(fmt, rate.bandwidth))
    ensures NewRate(fmt, RateText(fmt, rate)) == Some(PrintedRate(rate))
  {
    if rate.bandwidth > 0 {
      DiskAndBandwidthRead(fmt, rate);
    } else {
      DiskOnlyReads(fmt, rate);
    }
  }

  // ---------- reading everything back ----------

  function PrintedBallast(ballast: Option<Size>): Option<Size> {
    if ballast == Some(NO_SIZE) then None else ballast
  }

  /** What String keeps of a specification. */
  function Printed(spec: Spec): Spec {
    Spec(spec.path, spec.size, PrintedBallast(spec.ballast), spec.inMemory, spec.attrs, "",
         PebbleOptions.Unbroken(false, spec.pebble), PrintedRate(spec.rate))
  }

  /** None of the last three names has been seen. */
  predicate TailUnused(used: set<string>) {
    "attrs" !in used && "pebble" !in used && "provisioned-rate" !in used
  }

  lemma PathTypeRead(fmt: Format, spec: Spec) returns (st: State)
    ensures ParseFields(fmt, START, When(spec.path != "", "path", spec.path) + When(spec.inMemory, "type", "mem"))
      == Parsed(st)
    ensures st.spec == BLANK.(path := spec.path, inMemory := spec.inMemory)
    ensures "size" !in st.used && "ballast-size" !in st.used && TailUnused(st.used)
  {
    Kinds();
    var a := When(spec.path != "", "path", spec.path);
    var b := When(spec.inMemory, "type", "mem");
    var first := State(BLANK.(path := spec.path), if spec.path != "" then START.used + {"path"} else START.used);
    PartReads(fmt, START, a, spec.path != "", "path", spec.path, first.spec);
    st := State(first.spec.(inMemory := spec.inMemory), if spec.inMemory then first.used + {"type"} else first.used);
    PartReads(fmt, first, b, spec.inMemory, "type", "mem", st.spec);
    ParseAppend(fmt, START, a, b);
  }

  lemma SizePartReads(fmt: Format, st: State, size: Size) returns (after: State)
    requires size == NO_SIZE || SizeIn(size, MINIMUM_STORE_SIZE, 1.0, 100.0)
    requires SizePrintable(fmt, size) && "size" !in st.used && st.spec.size == NO_SIZE
    ensures ParseFields(fmt, st, SizeParts(fmt, "size", size)) == Parsed(after)
    ensures after.spec == st.spec.(size := size)
    ensures "ballast-size" !in st.used ==> "ballast-size" !in after.used
    ensures TailUnused(st.used) ==> TailUnused(after.used)
  {
    Kinds();
    after := State(st.spec.(size := size), if size != NO_SIZE then st.used + {"size"} else st.used);
    if size != NO_SIZE {
      SizeReads(fmt, "size", size, MINIMUM_STORE_SIZE, 1.0, 100.0);
    }
    PartReads(fmt, st, SizeParts(fmt, "size", size), size != NO_SIZE, "size", SizeText(fmt, size), after.spec);
  }

  lemma BallastPartReads(fmt: Format, st: State, spec: Spec) returns (after: State)
    requires spec.ballast.Some? ==> SizeIn(spec.ballast.value, 0, 0.0, 50.0) && SizePrintable(fmt, spec.ballast.value)
    requires "ballast-size" !in st.used && st.spec.ballast == None
    ensures ParseFields(fmt, st, BallastParts(fmt, spec)) == Parsed(after)
    ensures after.spec == st.spec.(ballast := PrintedBallast(spec.ballast))
    ensures TailUnused(st.used) ==> TailUnused(after.used)
  {
    Kinds();
    var shown := PrintedBallast(spec.ballast).Some?;
    after := State(st.spec.(ballast := PrintedBallast(spec.ballast)),
                   if shown then st.used + {"ballast-size"} else st.used);
    var text := if shown then SizeText(fmt, spec.ballast.value) else "";
    if shown {
      SizeReads(fmt, "ballast-size", spec.ballast.value, 0, 0.0, 50.0);
    }
    PartReads(fmt, st, BallastParts(fmt, spec), shown, "ballast-size", text, after.spec);
  }

  predicate HeadOk(fmt: Format, spec: Spec) {
    && (spec.size == NO_SIZE || SizeIn(spec.size, MINIMUM_STORE_SIZE, 1.0, 100.0))
    && (spec.ballast.Some? ==> SizeIn(spec.ballast.value, 0, 0.0, 50.0))
    && SizePrintable(fmt, spec.size)
    && (spec.ballast.Some? ==> SizePrintable(fmt, spec.ballast.value))
  }

  lemma Chain(fmt: Format, st: State, a: seq<string>, mid: State, b: seq<string>, end: Parse<State>)
    requires ParseFields(fmt, st, a) == Parsed(mid) && ParseFields(fmt, mid, b) == end
    ensures ParseFields(fmt, st, a + b) == end
  {
    ParseAppend(fmt, st, a, b);
  }

  lemma HeadReads(fmt: Format, spec: Spec) returns (st: State)
    requires HeadOk(fmt, spec)
    ensures ParseFields(fmt, START, HeadParts(fmt, spec)) == Parsed(st)
    ensures st.spec == BLANK.(path := spec.path, inMemory := spec.inMemory, size := spec.size,
                              ballast := PrintedBallast(spec.ballast))
    ensures TailUnused(st.used)
  {
    var a := When(spec.path != "", "path", spec.path) + When(spec.inMemory, "type", "mem");
    var first := PathTypeRead(fmt, spec);
    var second := SizePartReads(fmt, first, spec.size);
    Chain(fmt, START, a, first, SizeParts(fmt, "size", spec.size), Parsed(second));
    st := BallastPartReads(fmt, second, spec);
    Chain(fmt, START, a + SizeParts(fmt, "size", spec.size), second, BallastParts(fmt, spec), Parsed(st));
  }

  lemma AttrsPartReads(fmt: Format, st: State, attrs: seq<string>) returns (after: State)
    requires AttrsOk(attrs) && "attrs" !in st.used && st.spec.attrs == []
    ensures ParseFields(fmt, st, When(attrs != [], "attrs", Join(attrs, ':'))) == Parsed(after)
    ensures after.spec == st.spec.(attrs := attrs) && after.used <= st.used + {"attrs"}
  {
    Kinds();
    after := State(st.spec.(attrs := attrs), if attrs != [] then st.used + {"attrs"} else st.used);
    if attrs != [] {
      AttrsRead(attrs);
    }
    PartReads(fmt, st, When(attrs != [], "attrs", Join(attrs, ':')), attrs != [], "attrs", Join(attrs, ':'), after.spec);
  }

  lemma PebbleFieldReads(fmt: Format, pebble: string)
    requires PebbleOptions.TidyText(pebble)
    ensures PebbleField(fmt, PebbleOptions.Spaced(pebble))
      == var again := PebbleOptions.Unbroken(false, pebble);
         if fmt.pebbleOk(again) then Parsed(again) else Rejected
  {
    PebbleOptions.PrintedAgain(pebble);
  }

  lemma SetPebble(fmt: Format, spec: Spec, value: string)
    ensures SetField(fmt, spec, Pebble, value) == WithPebble(spec, PebbleField(fmt, value))
  {}

  /** An optional pebble field that sets the options to `again` or is rejected. */
  lemma PebbleOutcome(fmt: Format, st: State, shown: bool, text: string, again: string, ok: bool) returns (after: State)
    requires "pebble" !in st.used && (shown ==> text != "") && (!shown ==> again == st.spec.pebble)
    requires SetField(fmt, st.spec, Pebble, text) == if ok then Parsed(st.spec.(pebble := again)) else Rejected
    ensures after.spec == st.spec.(pebble := again) && after.used <= st.used + {"pebble"}
    ensures ParseFields(fmt, st, When(shown, "pebble", text)) == if !shown || ok then Parsed(after) else Rejected
  {
    Kinds();
    after := State(st.spec.(pebble := again), if shown then st.used + {"pebble"} else st.used);
    if !shown || ok {
      PartReads(fmt, st, When(shown, "pebble", text), shown, "pebble", text, after.spec);
    } else {
      FieldReads(fmt, st, "pebble", text);
    }
  }

  lemma PebbleSets(fmt: Format, spec: Spec, pebble: string, text: string, again: string)
    requires PebbleOptions.TidyText(pebble)
    requires text == PebbleOptions.Spaced(pebble) && again == PebbleOptions.Unbroken(false, pebble)
    ensures SetField(fmt, spec, Pebble, text)
      == if fmt.pebbleOk(again) then Parsed(spec.(pebble := again)) else Rejected
  {
    PebbleFieldReads(fmt, pebble);
    SetPebble(fmt, spec, text);
  }

  lemma PebblePartReads(fmt: Format, st: State, pebble: string) returns (after: State)
    requires PebbleOptions.TidyText(pebble) && "pebble" !in st.used && st.spec.pebble == ""
    ensures after.spec == st.spec.(pebble := PebbleOptions.Unbroken(false, pebble))
    ensures after.used <= st.used + {"pebble"}
    ensures ParseFields(fmt, st, When(pebble != "", "pebble", PebbleOptions.Spaced(pebble)))
      == if pebble == "" || fmt.pebbleOk(after.spec.pebble) then Parsed(after) else Rejected
  {
    var again, text := PebbleOptions.Unbroken(false, pebble), PebbleOptions.Spaced(pebble);
    PebbleSets(fmt, st.spec, pebble, text, again);
    after := PebbleOutcome(fmt, st, pebble != "", text, again, fmt.pebbleOk(again));
  }

  lemma RatePartReads(fmt: Format, st: State, rate: Rate) returns (after: State)
    requires RateOk(rate) && "provisioned-rate" !in st.used && st.spec.rate == NO_RATE
    requires rate.bandwidth > 0 ==> BytesPrintable(fmt, rate.bandwidth)
    ensures ParseFields(fmt, st, When(rate.disk != "", "provisioned-rate", RateText(fmt, rate))) == Parsed(after)
    ensures after.spec == st.spec.(rate := PrintedRate(rate))
  {
    Kinds();
    after := State(st.spec.(rate := PrintedRate(rate)),
                   if rate.disk != "" then st.used + {"provisioned-rate"} else st.used);
    if rate.disk != "" {
      RateReads(fmt, rate);
    }
    PartReads(fmt, st, When(rate.disk != "", "provisioned-rate", RateText(fmt, rate)), rate.disk != "",
              "provisioned-rate", RateText(fmt, rate), after.spec);
  }

  function UpToAttrs(fmt: Format, spec: Spec): seq<string> {
    HeadParts(fmt, spec) + When(spec.attrs != [], "attrs", Join(spec.attrs, ':'))
  }

  function UpToPebble(fmt: Format, spec: Spec): seq<string> {
    UpToAttrs(fmt, spec) + When(spec.pebble != "", "pebble", PebbleOptions.Spaced(spec.pebble))
  }

  lemma UpToAttrsRead(fmt: Format, spec: Spec) returns (st: State)
    requires HeadOk(fmt, spec) && AttrsOk(spec.attrs)
    ensures ParseFields(fmt, START, UpToAttrs(fmt, spec)) == Parsed(st)
    ensures st.spec == Printed(spec).(pebble := "", rate := NO_RATE)
    ensures "pebble" !in st.used && "provisioned-rate" !in st.used
  {
    var head := HeadReads(fmt, spec);
    st := AttrsPartReads(fmt, head, spec.attrs);
    Chain(fmt, START, HeadParts(fmt, spec), head, When(spec.attrs != [], "attrs", Join(spec.attrs, ':')), Parsed(st));
  }

  lemma UpToPebbleRead(fmt: Format, spec: Spec) returns (st: State)
    requires HeadOk(fmt, spec) && AttrsOk(spec.attrs) && PebbleText(fmt, spec.pebble)
    ensures st.spec == Printed(spec).(rate := NO_RATE)
    ensures "provisioned-rate" !in st.used
    ensures ParseFields(fmt, START, UpToPebble(fmt, spec))
      == if spec.pebble == "" || fmt.pebbleOk(Printed(spec).pebble) then Parsed(st) else Rejected
  {
    var before := UpToAttrsRead(fmt, spec);
    st := PebblePartReads(fmt, before, spec.pebble);
    var end := if spec.pebble == "" || fmt.pebbleOk(Printed(spec).pebble) then Parsed(st) else Rejected;
    Chain(fmt, START, UpToAttrs(fmt, spec), before,
          When(spec.pebble != "", "pebble", PebbleOptions.Spaced(spec.pebble)), end);
  }

  /** The fields of a printed specification, read in order. */
  lemma PartsRead(fmt: Format, spec: Spec)
    requires FieldsOk(fmt, spec) && Printable(fmt, spec)
    ensures var r := ParseFields(fmt, START, Parts(fmt, spec));
      if spec.pebble == "" || fmt.pebbleOk(Printed(spec).pebble) then r.Parsed? && r.value.spec == Printed(spec)
      else r == Rejected
  {
    var before := UpToPebbleRead(fmt, spec);
    var after := RatePartReads(fmt, before, spec.rate);
    ParseAppend(fmt, START, UpToPebble(fmt, spec),
                When(spec.rate.disk != "", "provisioned-rate", RateText(fmt, spec.rate)));
  }

  // ---------- the round trip ----------

  predicate AllPlain(parts: seq<string>) { forall p :: p in parts ==> PlainText(p) }

  lemma WhenPlain(shown: bool, name: string, value: string)
    requires Name(name) && (shown ==> PlainText(value))
    ensures AllPlain(When(shown, name, value))
  {
    assert PlainText(name);
  }

  lemma SizePlain(fmt: Format, name: string, size: Size, minBytes: nat, minPercent: real, maxPercent: real)
    requires size == NO_SIZE || SizeIn(size, minBytes, minPercent, maxPercent)
    requires minPercent >= 0.0 && SizePrintable(fmt, size) && Name(name)
    ensures AllPlain(SizeParts(fmt, name, size))
  {
    if size != NO_SIZE {
      SizeReads(fmt, name, size, minBytes, minPercent, maxPercent);
      WhenPlain(true, name, SizeText(fmt, size));
    }
  }

  lemma HeadPlain(fmt: Format, spec: Spec)
    requires HeadOk(fmt, spec) && PlainText(spec.path)
    ensures AllPlain(HeadParts(fmt, spec))
  {
    WhenPlain(spec.path != "", "path", spec.path);
    WhenPlain(spec.inMemory, "type", "mem");
    SizePlain(fmt, "size", spec.size, MINIMUM_STORE_SIZE, 1.0, 100.0);
    if spec.ballast.Some? {
      SizePlain(fmt, "ballast-size", spec.ballast.value, 0, 0.0, 50.0);
    }
  }

  lemma AttrsPlain(attrs: seq<string>)
    requires AttrsOk(attrs)
    ensures AllPlain(When(attrs != [], "attrs", Join(attrs, ':')))
  {
    JoinPlain(attrs);
    WhenPlain(attrs != [], "attrs", Join(attrs, ':'));
  }

  lemma UpToPebblePlain(fmt: Format, spec: Spec)
    requires HeadOk(fmt, spec) && PlainText(spec.path) && AttrsOk(spec.attrs) && PlainText(spec.pebble)
    ensures AllPlain(UpToPebble(fmt, spec))
  {
    HeadPlain(fmt, spec);
    AttrsPlain(spec.attrs);
    WhenPlain(spec.pebble != "", "pebble", PebbleOptions.Spaced(spec.pebble));
  }

  lemma PartsPlain(fmt: Format, spec: Spec)
    requires FieldsOk(fmt, spec) && Printable(fmt, spec)
    ensures AllPlain(Parts(fmt, spec))
  {
    UpToPebblePlain(fmt, spec);
    RatePlain(fmt, spec.rate);
    WhenPlain(spec.rate.disk != "", "provisioned-rate", RateText(fmt, spec.rate));
    assert Parts(fmt, spec)
      == UpToPebble(fmt, spec) + When(spec.rate.disk != "", "provisioned-rate", RateText(fmt, spec.rate));
  }

  /** What a specification must not hold to come back from its own text. */
  predicate Faithful(spec: Spec) {
    && spec.rocksdb == ""
    && spec.ballast != Some(NO_SIZE)
    && spec.rate.bandwidth >= 0
    && PebbleOptions.UnbrokenBrackets(false, spec.pebble)
  }

  lemma FaithfulIsPrinted(spec: Spec)
    ensures Printed(spec) == spec <==> Faithful(spec)
  {
    PebbleOptions.UnbrokenFixed(false, spec.pebble);
  }

  lemma PrintedText(fmt: Format, spec: Spec)
    requires FieldsOk(fmt, spec) && Complete(spec) && Printable(fmt, spec)
    ensures Split(Join(Parts(fmt, spec), ','), ',') == Parts(fmt, spec)
    ensures Join(Parts(fmt, spec), ',') != ""
  {
    PartsPlain(fmt, spec);
    var parts := Parts(fmt, spec);
    assert parts != [] && parts[0] != "" by {
      if spec.path != "" {
        assert parts[0] == Field("path", spec.path);
      } else {
        assert parts[0] == Field("type", "mem");
      }
    }
    SplitJoin(parts, ',');
  }

  lemma StillComplete(spec: Spec)
    requires Complete(spec)
    ensures Complete(Printed(spec))
  {}

  /** Reading the text of an accepted specification gives what String keeps of it, unless a
      stanza joined from two lines is no longer valid Pebble. */
  lemma ReadsBack(fmt: Format, spec: Spec)
    requires FieldsOk(fmt, spec) && Complete(spec) && Printable(fmt, spec)
    ensures ParseSpec(fmt, Join(Parts(fmt, spec), ','))
      == if spec.pebble == "" || fmt.pebbleOk(Printed(spec).pebble) then Parsed(Printed(spec)) else Rejected
  {
    PrintedText(fmt, spec);
    PartsRead(fmt, spec);
    StillComplete(spec);
  }

  /** The round trip: whatever text was accepted, printing the specification and parsing it
      again gives the same specification exactly when it is faithful. */
  lemma RoundTrip(fmt: Format, value: string)
    requires ParseSpec(fmt, value).Parsed? && Printable(fmt, ParseSpec(fmt, value).value)
    ensures var spec := ParseSpec(fmt, value).value;
      ParseSpec(fmt, Join(Parts(fmt, spec), ',')) == Parsed(spec) <==> Faithful(spec)
  {
    var spec := ParseSpec(fmt, value).value;
    AcceptedIsFit(fmt, value);
    ReadsBack(fmt, spec);
    FaithfulIsPrinted(spec);
  }

  lemma OneField(fmt: Format, st: State, part: string)
    ensures ParseFields(fmt, st, [part]) == ParseField(fmt, st, part)
  {
    assert [part][1..] == [];
  }

  lemma TwoFields(fmt: Format, a: string, mid: State, b: string, end: State)
    requires PlainText(a) && PlainText(b)
    requires ParseField(fmt, START, a) == Parsed(mid) && ParseField(fmt, mid, b) == Parsed(end) && Complete(end.spec)
    ensures ParseSpec(fmt, a + "," + b) == Parsed(end.spec)
  {
    JoinTwo(a, b, ',');
    SplitJoin([a, b], ',');
    OneField(fmt, START, a);
    OneField(fmt, mid, b);
    Chain(fmt, START, [a], mid, [b], Parsed(end));
    assert [a] + [b] == [a, b];
  }

  lemma RocksdbReads(fmt: Format, st: State, options: string)
    requires "rocksdb" !in st.used && options != ""
    ensures ParseField(fmt, st, Field("rocksdb", options))
      == Parsed(State(st.spec.(rocksdb := options), st.used + {"rocksdb"}))
  {
    Kinds();
    IndexAfter("rocksdb", '=', options);
    assert "rocksdb" + ['='] + options == Field("rocksdb", options);
    assert Lower("rocksdb") == "rocksdb";
  }

  lemma PathReads(fmt: Format, path: string) returns (st: State)
    requires path != ""
    ensures ParseField(fmt, START, Field("path", path)) == Parsed(st)
    ensures st.spec == BLANK.(path := path) && "rocksdb" !in st.used
  {
    Kinds();
    FieldReads(fmt, START, "path", path);
    st := State(BLANK.(path := path), START.used + {"path"});
  }

  lemma FieldPlain(name: string, value: string)
    requires PlainText(name) && PlainText(value)
    ensures PlainText(Field(name, value))
  {}

  lemma RocksdbAccepted(fmt: Format, path: string, options: string)
    requires path != "" && options != "" && PlainText(path) && PlainText(options)
    ensures ParseSpec(fmt, Field("path", path) + "," + Field("rocksdb", options))
      == Parsed(BLANK.(path := path, rocksdb := options))
  {
    FieldPlain("path", path);
    FieldPlain("rocksdb", options);
    var mid := PathReads(fmt, path);
    RocksdbReads(fmt, mid, options);
    var end := State(mid.spec.(rocksdb := options), mid.used + {"rocksdb"});
    assert Complete(end.spec);
    TwoFields(fmt, Field("path", path), mid, Field("rocksdb", options), end);
  }

  lemma RocksdbUnprinted(fmt: Format, spec: Spec)
    requires FieldsOk(fmt, spec) && Complete(spec)
    requires spec.size == NO_SIZE && spec.ballast == None && spec.pebble == "" && spec.rate == NO_RATE
    ensures ParseSpec(fmt, Join(Parts(fmt, spec), ',')) == Parsed(spec.(rocksdb := ""))
  {
    ReadsBack(fmt, spec);
  }

  /** RocksDB options are accepted and never come back. */
  lemma RocksdbLost(fmt: Format, path: string, options: string)
    requires path != "" && options != "" && PlainText(path) && PlainText(options)
    ensures var spec := BLANK.(path := path, rocksdb := options);
      && ParseSpec(fmt, Field("path", path) + "," + Field("rocksdb", options)) == Parsed(spec)
      && ParseSpec(fmt, Join(Parts(fmt, spec), ',')) == Parsed(spec.(rocksdb := ""))
  {
    RocksdbAccepted(fmt, path, options);
    AcceptedIsFit(fmt, Field("path", path) + "," + Field("rocksdb", options));
    RocksdbUnprinted(fmt, BLANK.(path := path, rocksdb := options));
  }

  /** The same on the two methods. */
  method ParsePrintParse(fmt: Format, value: string) returns (first: Parse<Spec>, again: Parse<Spec>)
    ensures first == ParseSpec(fmt, value)
    ensures first.Parsed? && Printable(fmt, first.value) ==>
      (again == first <==> Faithful(first.value))
  {
    first := NewStoreSpec(fmt, value);
    again := first;
    if first.Parsed? {
      var text := String(fmt, first.value);
      again := NewStoreSpec(fmt, text);
      if Printable(fmt, first.value) {
        RoundTrip(fmt, value);
      }
    }
  }

  // ---------- what the fields mean ----------

  lemma SeparatorFree(s: string, c: char)
    requires c !in s
    ensures Split(s, c) == [s]
  {}

  /** A text without separators is a path. */
  lemma BarePath(fmt: Format, path: string)
    requires path != "" && PlainText(path) && '=' !in path
    ensures ParseSpec(fmt, path) == Parsed(BLANK.(path := path))
  {
    Kinds();
    SeparatorFree(path, ',');
    OneField(fmt, START, path);
    assert FieldOf(path) == ("path", path);
  }

  /** The step of the loop for a part that is not empty. */
  lemma PartUsed(fmt: Format, st: State, part: string)
    requires ParseField(fmt, st, part).Parsed?
    ensures st.used <= ParseField(fmt, st, part).value.used
    ensures part != "" ==>
      FieldOf(part).0 !in st.used && FieldOf(part).0 in ParseField(fmt, st, part).value.used
  {}

  lemma {:induction false} NameNew(fmt: Format, st: State, parts: seq<string>, j: nat)
    requires ParseFields(fmt, st, parts).Parsed? && j < |parts| && parts[j] != ""
    ensures FieldOf(parts[j]).0 !in st.used
    decreases |parts|
  {
    PartUsed(fmt, st, parts[0]);
    if j > 0 {
      NameNew(fmt, ParseField(fmt, st, parts[0]).value, parts[1..], j - 1);
    }
  }

  lemma {:induction false} NamesDiffer(fmt: Format, st: State, parts: seq<string>, i: nat, j: nat)
    requires ParseFields(fmt, st, parts).Parsed? && i < j < |parts| && parts[i] != "" && parts[j] != ""
    ensures FieldOf(parts[i]).0 != FieldOf(parts[j]).0
    decreases |parts|
  {
    var next := ParseField(fmt, st, parts[0]).value;
    PartUsed(fmt, st, parts[0]);
    if i == 0 {
      NameNew(fmt, next, parts[1..], j - 1);
    } else {
      NamesDiffer(fmt, next, parts[1..], i - 1, j - 1);
    }
  }

  /** No field is given twice in an accepted text, whatever the case of its name. */
  lemma NoFieldTwice(fmt: Format, value: string, i: nat, j: nat)
    requires ParseSpec(fmt, value).Parsed? && i < j < |Split(value, ',')|
    requires Split(value, ',')[i] != "" && Split(value, ',')[j] != ""
    ensures FieldOf(Split(value, ',')[i]).0 != FieldOf(Split(value, ',')[j]).0
  {
    NamesDiffer(fmt, START, Split(value, ','), i, j);
  }

  /** A fraction means a hundred times as many percent: 0.2 and 20% are the same size. */
  lemma FractionIsPercentage(fmt: Format, fraction: string, percent: string, minBytes: int, low: real, high: real)
    requires IsFraction(fraction) && fraction[|fraction| - 1] != '%' && IsFraction(percent + "%")
    requires fmt.parseFloat(fraction).Some? && fmt.parseFloat(percent) == Some(100.0 * fmt.parseFloat(fraction).value)
    ensures NewSizeSpec(fmt, fraction, minBytes, low, high) == NewSizeSpec(fmt, percent + "%", minBytes, low, high)
  {
    var text := percent + "%";
    assert text[..|text| - 1] == percent;
  }
}
