/** The --store flag: NewStoreSpec reads it and StoreSpec.String writes it,
    engine/pkg/base/store_spec.go. */
module StoreSpec {
  import opened Common
  import opened Text
  import PebbleOptions
  import Sorting

  /** The number formats and the Pebble OPTIONS parser, which live in other packages. */
  datatype Format = Format(
    parseBytes: string -> Option<int>,
    iBytes: int -> string,
    parseFloat: string -> Option<real>,
    ftoa: real -> string,
    pebbleOk: string -> bool)

  const MINIMUM_STORE_SIZE := 671088640

  datatype Size = Size(bytes: int, percent: real)

  datatype Rate = Rate(disk: string, bandwidth: int)

  datatype Spec = Spec(
    path: string, size: Size, ballast: Option<Size>, inMemory: bool, attrs: seq<string>,
    rocksdb: string, pebble: string, rate: Rate)

  const NO_SIZE := Size(0, 0.0)
  const NO_RATE := Rate("", 0)
  const BLANK := Spec("", NO_SIZE, None, false, [], "", "", NO_RATE)

  /** What parsing comes to. The pebble tokeniser can run for ever. */
  datatype Parse<+T> = Parsed(value: T) | Rejected | Hangs

  // ---------- sizes ----------

  /** NNN.[MMM] or [NNN].MMM */
  predicate IsDecimal(s: string) {
    var dot := IndexOf(s, '.');
    dot != -1 && |s| >= 2 && AllDigits(s[..dot]) && AllDigits(s[dot + 1..])
  }

  /** NNN% or NNN.[MMM]% */
  predicate IsPercentage(s: string) {
    |s| >= 2 && s[|s| - 1] == '%' &&
    var number := s[..|s| - 1];
    var dot := IndexOf(number, '.');
    if dot == -1 then AllDigits(number)
    else dot > 0 && AllDigits(number[..dot]) && AllDigits(number[dot + 1..])
  }

  /** fractionRegex */
  predicate IsFraction(s: string) {
    var unsigned := if s != "" && s[0] == '-' then s[1..] else s;
    IsDecimal(unsigned) || IsPercentage(unsigned)
  }

  function NewSizeSpec(fmt: Format, value: string, minBytes: int, minPercent: real, maxPercent: real): Option<Size> {
    if IsFraction(value) then
      var n := |value| - 1;
      var number := if value[n] == '%' then fmt.parseFloat(value[..n]) else fmt.parseFloat(value);
      if number.None? then None
      else
        var percent := if value[n] == '%' then number.value else 100.0 * number.value;
        if percent < minPercent || percent > maxPercent then None else Some(Size(0, percent))
    else
      var bytes := fmt.parseBytes(value);
      if bytes.None? || bytes.value < minBytes then None else Some(Size(bytes.value, 0.0))
  }

  // ---------- the provisioned rate ----------

  datatype RateState = RateState(rate: Rate, used: set<string>)

  function BandwidthOf(fmt: Format, value: string): Option<int> {
    if |value| <= 2 || value[|value| - 2..] != "/s" then None
    else
      var n := fmt.parseBytes(value[..|value| - 2]);
      if n == Some(0) then None else n
  }

  function RateField(fmt: Format, st: RateState, part: string): Option<RateState> {
    if part == "" then Some(st)
    else
      var pair := Split(part, '=');
      if |pair| != 2 || pair[0] in st.used then None
      else
        var used := st.used + {pair[0]};
        if pair[0] == "" then Some(st.(used := used))
        else if pair[1] == "" then None
        else if pair[0] == "disk-name" then Some(RateState(st.rate.(disk := pair[1]), used))
        else if pair[0] == "bandwidth" then
          var bandwidth := BandwidthOf(fmt, pair[1]);
          if bandwidth.None? then None else Some(RateState(st.rate.(bandwidth := bandwidth.value), used))
        else None
  }

  function RateFields(fmt: Format, st: RateState, parts: seq<string>): Option<RateState>
    decreases |parts|
  {
    if parts == [] then Some(st)
    else
      var next := RateField(fmt, st, parts[0]);
      if next.None? then None else RateFields(fmt, next.value, parts[1..])
  }

  function NewRate(fmt: Format, value: string): Option<Rate> {
    var st := RateFields(fmt, RateState(NO_RATE, {}), Split(value, ':'));
    if st.None? || st.value.rate.disk == "" then None else Some(st.value.rate)
  }

  /** newStoreProvisionedRateSpec */
  method NewStoreProvisionedRateSpec(fmt: Format, value: string) returns (r: Option<Rate>)
    ensures r == NewRate(fmt, value)
  {
    var st := RateState(NO_RATE, {});
    var parts := Split(value, ':');
    var i := 0;
    while i < |parts|
      invariant 0 <= i <= |parts|
      invariant RateFields(fmt, RateState(NO_RATE, {}), parts) == RateFields(fmt, st, parts[i..])
    {
      assert parts[i..][1..] == parts[i + 1..];
      var next := RateField(fmt, st, parts[i]);
      if next.None? {
        return None;
      }
      st, i := next.value, i + 1;
    }
    if st.rate.disk == "" {
      return None;
    }
    return Some(st.rate);
  }

  // ---------- attributes ----------

  predicate Distinct(parts: seq<string>) {
    forall i, j :: 0 <= i < j < |parts| ==> parts[i] != parts[j]
  }

  function Attrs(value: string): Option<seq<string>> {
    var parts := Split(value, ':');
    if Distinct(parts) then Some(Sorting.Sort(parts, Leq)) else None
  }

  lemma {:induction false} DistinctBag(parts: seq<string>)
    requires Distinct(parts)
    ensures multiset(parts) == multiset(set p | p in parts)
  {
    if parts != [] {
      var n := |parts| - 1;
      DistinctBag(parts[..n]);
      assert parts == parts[..n] + [parts[n]];
      assert parts[n] !in parts[..n];
      assert (set p | p in parts) == (set p | p in parts[..n]) + {parts[n]};
    }
  }

  /** for attribute := range attrMap: every order is possible. */
  method Listing(attrs: set<string>) returns (listed: seq<string>)
    ensures multiset(listed) == multiset(attrs)
  {
    var left := attrs;
    listed := [];
    while left != {}
      invariant left <= attrs && multiset(listed) == multiset(attrs - left)
      decreases left
    {
      var a :| a in left;
      assert attrs - (left - {a}) == (attrs - left) + {a};
      left, listed := left - {a}, listed + [a];
    }
    assert attrs - {} == attrs;
  }

  method CollectAttrs(parts: seq<string>) returns (r: Option<set<string>>)
    ensures r.Some? <==> Distinct(parts)
    ensures r.Some? ==> multiset(r.value) == multiset(parts)
  {
    var seen: set<string> := {};
    for i := 0 to |parts|
      invariant Distinct(parts[..i]) && seen == set p | p in parts[..i]
    {
      assert parts[..i + 1] == parts[..i] + [parts[i]];
      if parts[i] in seen {
        return None;
      }
      seen := seen + {parts[i]};
    }
    assert parts[..|parts|] == parts;
    DistinctBag(parts);
    return Some(seen);
  }

  /** The attribute case of NewStoreSpec. */
  method ParseAttrs(value: string) returns (r: Option<seq<string>>)
    ensures r == Attrs(value)
  {
    var parts := Split(value, ':');
    var attrMap := CollectAttrs(parts);
    if attrMap.None? {
      return None;
    }
    var listed := Listing(attrMap.value);
    SortedAlike(parts, listed);
    return Some(Sorting.Sort(listed, Leq));
  }

  lemma SortedAlike(a: seq<string>, b: seq<string>)
    requires multiset(a) == multiset(b)
    ensures Sorting.Sort(a, Leq) == Sorting.Sort(b, Leq)
  {
    LeqIsOrder();
    Sorting.SortSorts(a, Leq);
    Sorting.SortSorts(b, Leq);
    Sorting.SortedUnique(Sorting.Sort(a, Leq), Sorting.Sort(b, Leq), Leq);
  }

  // ---------- fields ----------

  /** strings.SplitN(part, "=", 2); a part without "=" is a path. */
  function FieldOf(part: string): (string, string) {
    var i := IndexOf(part, '=');
    if i == -1 then ("path", part) else (Lower(part[..i]), part[i + 1..])
  }

  function SizeField(fmt: Format, value: string): Option<Size> {
    NewSizeSpec(fmt, value, MINIMUM_STORE_SIZE, 1.0, 100.0)
  }

  function BallastField(fmt: Format, value: string): Option<Size> {
    NewSizeSpec(fmt, value, 0, 0.0, 50.0)
  }

  /** The pebble case: the tokeniser, then the Pebble parser. */
  function PebbleField(fmt: Format, value: string): Parse<string> {
    var text := PebbleOptions.Squeeze(false, PebbleOptions.Trim(value));
    if text.None? then Hangs else if fmt.pebbleOk(text.value) then Parsed(text.value) else Rejected
  }

  datatype Kind = Path | StoreSize | BallastSize | Attributes | Type | Rocksdb | Pebble | ProvisionedRate | Unknown

  /** The names the switch knows. */
  function KindOf(name: string): Kind {
    if name == "path" then Path
    else if name == "size" then StoreSize
    else if name == "ballast-size" then BallastSize
    else if name == "attrs" then Attributes
    else if name == "type" then Type
    else if name == "rocksdb" then Rocksdb
    else if name == "pebble" then Pebble
    else if name == "provisioned-rate" then ProvisionedRate
    else Unknown
  }

  function WithPebble(spec: Spec, text: Parse<string>): Parse<Spec> {
    match text
    case Parsed(options) => Parsed(spec.(pebble := options))
    case Hangs => Hangs
    case Rejected => Rejected
  }

  /** The switch over the fields. */
  function SetField(fmt: Format, spec: Spec, kind: Kind, value: string): Parse<Spec> {
    match kind
    case Path => Parsed(spec.(path := value))
    case StoreSize =>
      var size := SizeField(fmt, value);
      if size.None? then Rejected else Parsed(spec.(size := size.value))
    case BallastSize =>
      var size := BallastField(fmt, value);
      if size.None? then Rejected else Parsed(spec.(ballast := size))
    case Attributes =>
      var attrs := Attrs(value);
      if attrs.None? then Rejected else Parsed(spec.(attrs := attrs.value))
    case Type => if value == "mem" then Parsed(spec.(inMemory := true)) else Rejected
    case Rocksdb => Parsed(spec.(rocksdb := value))
    case Pebble => WithPebble(spec, PebbleField(fmt, value))
    case ProvisionedRate =>
      var rate := NewRate(fmt, value);
      if rate.None? then Rejected else Parsed(spec.(rate := rate.value))
    case Unknown => Rejected
  }

  datatype State = State(spec: Spec, used: set<string>)

  function ParseField(fmt: Format, st: State, part: string): Parse<State> {
    var (name, value) := FieldOf(part);
    if part == "" then Parsed(st)
    else if name in st.used then Rejected
    else if name == "" then Parsed(st.(used := st.used + {name}))
    else if value == "" then Rejected
    else
      var spec := SetField(fmt, st.spec, KindOf(name), value);
      if spec.Parsed? then Parsed(State(spec.value, st.used + {name}))
      else if spec.Hangs? then Hangs
      else Rejected
  }

  function ParseFields(fmt: Format, st: State, parts: seq<string>): Parse<State>
    decreases |parts|
  {
    if parts == [] then Parsed(st)
    else
      var next := ParseField(fmt, st, parts[0]);
      if next.Parsed? then ParseFields(fmt, next.value, parts[1..]) else next
  }

  /** The checks behind the loop. */
  predicate Complete(spec: Spec) {
    if spec.inMemory then spec.path == "" && spec.size != NO_SIZE && spec.ballast.None?
    else spec.path != ""
  }

  const START := State(BLANK, {})

  function ParseSpec(fmt: Format, value: string): Parse<Spec> {
    if value == "" then Rejected
    else
      var st := ParseFields(fmt, START, Split(value, ','));
      if st.Parsed? then if Complete(st.value.spec) then Parsed(st.value.spec) else Rejected
      else if st.Hangs? then Hangs
      else Rejected
  }

  /** The pebble case as the source runs it. */
  method ParsePebble(fmt: Format, value: string) returns (r: Parse<string>)
    ensures r == PebbleField(fmt, value)
    ensures var text := PebbleOptions.Trim(value);
      r == Hangs <==> PebbleOptions.Unclosed(text) || PebbleOptions.WideRun(false, false, text)
  {
    var text := PebbleOptions.Normalise(value);
    return if text.None? then Hangs else if fmt.pebbleOk(text.value) then Parsed(text.value) else Rejected;
  }

  /** The switch as the source runs it. */
  method Assign(fmt: Format, spec: Spec, kind: Kind, value: string) returns (r: Parse<Spec>)
    ensures r == SetField(fmt, spec, kind, value)
  {
    match kind
    case Attributes =>
      var attrs := ParseAttrs(value);
      return if attrs.None? then Rejected else Parsed(spec.(attrs := attrs.value));
    case Pebble =>
      var text := ParsePebble(fmt, value);
      return WithPebble(spec, text);
    case ProvisionedRate =>
      var rate := NewStoreProvisionedRateSpec(fmt, value);
      return if rate.None? then Rejected else Parsed(spec.(rate := rate.value));
    case _ =>
      return SetField(fmt, spec, kind, value);
  }

  /** NewStoreSpec: one pass over the comma-separated parts. */
  method NewStoreSpec(fmt: Format, value: string) returns (r: Parse<Spec>)
    ensures r == ParseSpec(fmt, value)
  {
    if |value| == 0 {
      return Rejected;
    }
    var parts := Split(value, ',');
    var spec, used := BLANK, {};
    var i := 0;
    while i < |parts|
      invariant 0 <= i <= |parts|
      invariant ParseFields(fmt, START, parts) == ParseFields(fmt, State(spec, used), parts[i..])
    {
      var part := parts[i];
      assert parts[i..][0] == part && parts[i..][1..] == parts[i + 1..];
      i := i + 1;
      if |part| == 0 {
        continue;
      }
      var (name, text) := FieldOf(part);
      if name in used {
        return Rejected;
      }
      if |name| > 0 {
        if |text| == 0 {
          return Rejected;
        }
        var next := Assign(fmt, spec, KindOf(name), text);
        if !next.Parsed? {
          return next;
        }
        spec := next.value;
      }
      used := used + {name};
    }
    return if Complete(spec) then Parsed(spec) else Rejected;
  }

  // ---------- printing ----------

  function Field(name: string, value: string): string { name + "=" + value }

  function When(shown: bool, name: string, value: string): seq<string> {
    if shown then [Field(name, value)] else []
  }

  function SizeParts(fmt: Format, name: string, size: Size): seq<string> {
    When(size.bytes > 0, name, fmt.iBytes(size.bytes)) + When(size.percent > 0.0, name, fmt.ftoa(size.percent) + "%")
  }

  function BallastParts(fmt: Format, spec: Spec): seq<string> {
    if spec.ballast.None? then [] else SizeParts(fmt, "ballast-size", spec.ballast.value)
  }

  function RateText(fmt: Format, rate: Rate): string {
    Field("disk-name", rate.disk)
    + if rate.bandwidth > 0 then ":" + Field("bandwidth", fmt.iBytes(rate.bandwidth) + "/s") else ""
  }

  /** The parts that String prints, in order. */
  function Parts(fmt: Format, spec: Spec): seq<string> {
    HeadParts(fmt, spec)
    + When(spec.attrs != [], "attrs", Join(spec.attrs, ':'))
    + When(spec.pebble != "", "pebble", PebbleOptions.Spaced(spec.pebble))
    + When(spec.rate.disk != "", "provisioned-rate", RateText(fmt, spec.rate))
  }

  /** The inner loop over the attributes. */
  method PrintAttrs(attrs: seq<string>) returns (text: string)
    ensures text == Join(attrs, ':')
  {
    text := "";
    for i := 0 to |attrs|
      invariant text == Join(attrs[..i], ':')
    {
      JoinSnoc(attrs[..i], attrs[i], ':');
      assert attrs[..i + 1] == attrs[..i] + [attrs[i]];
      if i != 0 {
        text := text + ":";
      }
      text := text + attrs[i];
    }
    assert attrs[..|attrs|] == attrs;
  }

  lemma {:induction false} JoinSnoc(parts: seq<string>, last: string, c: char)
    ensures Join(parts + [last], c) == if parts == [] then last else Join(parts, c) + [c] + last
    decreases |parts|
  {
    if |parts| > 1 {
      assert (parts + [last])[1..] == parts[1..] + [last];
      JoinSnoc(parts[1..], last, c);
    }
  }

  /** One Fprintf of a field with its comma. */
  method Append(buffer: string, ghost parts: seq<string>, shown: bool, name: string, value: string)
    returns (r: string)
    requires buffer == Terminated(parts, ',')
    ensures r == Terminated(parts + When(shown, name, value), ',')
  {
    TerminatedAppend(parts, When(shown, name, value), ',');
    assert Terminated([Field(name, value)][1..], ',') == "";
    r := if shown then buffer + name + "=" + value + "," else buffer;
  }

  /** The size fields of String. */
  method AppendSize(fmt: Format, buffer: string, ghost parts: seq<string>, name: string, size: Size)
    returns (r: string)
    requires buffer == Terminated(parts, ',')
    ensures r == Terminated(parts + SizeParts(fmt, name, size), ',')
  {
    ghost var first := When(size.bytes > 0, name, fmt.iBytes(size.bytes));
    r := Append(buffer, parts, size.bytes > 0, name, fmt.iBytes(size.bytes));
    ghost var second := When(size.percent > 0.0, name, fmt.ftoa(size.percent) + "%");
    assert parts + first + second == parts + SizeParts(fmt, name, size);
    r := Append(r, parts + first, size.percent > 0.0, name, fmt.ftoa(size.percent) + "%");
  }

  function HeadParts(fmt: Format, spec: Spec): seq<string> {
    When(spec.path != "", "path", spec.path)
    + When(spec.inMemory, "type", "mem")
    + SizeParts(fmt, "size", spec.size)
    + BallastParts(fmt, spec)
  }

  /** The first half of String. */
  method PrintHead(fmt: Format, spec: Spec) returns (buffer: string)
    ensures buffer == Terminated(HeadParts(fmt, spec), ',')
  {
    ghost var path := When(spec.path != "", "path", spec.path);
    ghost var kind := path + When(spec.inMemory, "type", "mem");
    assert [] + path == path;
    buffer := Append("", [], spec.path != "", "path", spec.path);
    buffer := Append(buffer, path, spec.inMemory, "type", "mem");
    buffer := AppendSize(fmt, buffer, kind, "size", spec.size);
    assert spec.ballast.None? ==> HeadParts(fmt, spec) == kind + SizeParts(fmt, "size", spec.size);
    if spec.ballast.Some? {
      buffer := AppendSize(fmt, buffer, kind + SizeParts(fmt, "size", spec.size), "ballast-size", spec.ballast.value);
    }
  }

  /** StoreSpec.String: every field with a comma behind it, then the last comma cut off. */
  method String(fmt: Format, spec: Spec) returns (text: string)
    ensures text == Join(Parts(fmt, spec), ',')
  {
    var buffer := PrintHead(fmt, spec);
    var attrs := PrintAttrs(spec.attrs);
    ghost var parts := HeadParts(fmt, spec);
    buffer := Append(buffer, parts, spec.attrs != [], "attrs", attrs);
    parts := parts + When(spec.attrs != [], "attrs", attrs);
    buffer := Append(buffer, parts, spec.pebble != "", "pebble", PebbleOptions.Spaced(spec.pebble));
    parts := parts + When(spec.pebble != "", "pebble", PebbleOptions.Spaced(spec.pebble));
    buffer := Append(buffer, parts, spec.rate.disk != "", "provisioned-rate", RateText(fmt, spec.rate));
    if |buffer| > 0 {
      CutIsJoin(Parts(fmt, spec), ',');
      return buffer[..|buffer| - 1];
    }
    return "";
  }
}
