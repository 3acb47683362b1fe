/** Request-parameter handling of the instrument endpoints
    (backend/internal/handlers/instruments.go): integer query parameters,
    pagination, the filter conditions with their numbered `$n` placeholders,
    the page count, and the validation of interval, limits and symbols. The
    SQL text itself and all database access are not modelled: a condition
    is described by the filter it applies and the placeholder numbers it
    uses. */
module Instruments {
  import opened Wrappers
  import opened Strings
  import opened Arith

  // ---------------------------------------------------------------------
  // Integer query parameters
  // ---------------------------------------------------------------------

  /** The range of Go's `int` on a 64-bit platform. */
  const MinInt := -0x8000_0000_0000_0000
  const MaxInt := 0x7FFF_FFFF_FFFF_FFFF

  predicate IsDigit(c: char) {
    '0' <= c <= '9'
  }

  predicate AllDigits(s: string) {
    forall i :: 0 <= i < |s| ==> IsDigit(s[i])
  }

  function DigitValue(c: char): (v: nat)
    requires IsDigit(c)
    ensures v < 10
  {
    c as int - '0' as int
  }

  /** The decimal value of a string of digits. */
  function DigitsValue(s: string): nat
    requires AllDigits(s)
  {
    if |s| == 0 then 0 else DigitsValue(s[..|s| - 1]) * 10 + DigitValue(s[|s| - 1])
  }

  /** `strconv.Atoi`: an optional '+' or '-' followed by at least one decimal
      digit, nothing else, with a value that fits in `int`. */
  function ParseInt(s: string): (r: Option<int>)
    ensures r.Some? ==> MinInt <= r.value <= MaxInt
    ensures r.Some? ==> |s| > 0
  {
    var signed := |s| > 0 && (s[0] == '+' || s[0] == '-');
    var digits := if signed then s[1..] else s;
    if |digits| == 0 || !AllDigits(digits) then None
    else
      var v := if signed && s[0] == '-' then -(DigitsValue(digits) as int) else DigitsValue(digits);
      if MinInt <= v <= MaxInt then Some(v) else None
  }

  function DigitChar(d: nat): (c: char)
    requires d < 10
    ensures IsDigit(c) && DigitValue(c) == d
  {
    ('0' as int + d) as char
  }

  /** Decimal text of a natural number, without leading zeros. */
  function FormatNat(n: nat): (s: string)
    ensures |s| > 0 && AllDigits(s)
    ensures |s| > 1 ==> s[0] != '0'
  {
    if n < 10 then [DigitChar(n)] else FormatNat(n / 10) + [DigitChar(n % 10)]
  }

  /** Decimal text of an integer (`strconv.Itoa`). */
  function FormatInt(n: int): (s: string)
    ensures |s| > 0
  {
    if n < 0 then "-" + FormatNat(-n) else FormatNat(n)
  }

  lemma {:induction false} DigitsOfFormat(n: nat)
    ensures DigitsValue(FormatNat(n)) == n
  {
    if n >= 10 {
      DigitsOfFormat(n / 10);
      var s := FormatNat(n);
      assert s[..|s| - 1] == FormatNat(n / 10);
    }
  }

  /** Parsing the decimal text of any `int` gives it back. */
  lemma ParseFormatted(n: int)
    requires MinInt <= n <= MaxInt
    ensures ParseInt(FormatInt(n)) == Some(n)
  {
    if n < 0 {
      ParseNegative(n);
    } else {
      ParseNonNegative(n);
    }
  }

  lemma ParseNonNegative(n: int)
    requires 0 <= n <= MaxInt
    ensures ParseInt(FormatInt(n)) == Some(n)
  {
    var s := FormatNat(n);
    DigitsOfFormat(n);
    assert IsDigit(s[0]);
    assert ParseInt(s) == Some(DigitsValue(s));
  }

  lemma ParseNegative(n: int)
    requires MinInt <= n < 0
    ensures ParseInt(FormatInt(n)) == Some(n)
  {
    var digits := FormatNat(-n);
    var s := "-" + digits;
    DigitsOfFormat(-n);
    assert s[0] == '-' && s[1..] == digits;
    assert ParseInt(s) == Some(-(DigitsValue(digits) as int));
  }

  /** Whatever parses is a sign and digits whose value is the result. */
  lemma ParsedShape(s: string)
    requires ParseInt(s).Some?
    ensures var body := if s[0] == '+' || s[0] == '-' then s[1..] else s;
            && |body| > 0 && AllDigits(body)
            && ParseInt(s).value == (if s[0] == '-' then -(DigitsValue(body) as int) else DigitsValue(body))
  {}

  /** Conversely, any sign ("", "+" or "-") followed by at least one digit
      parses to its value when that value fits in `int`, and is rejected
      when it does not. */
  lemma ParseSignedDigits(sign: string, digits: string)
    requires sign == "" || sign == "+" || sign == "-"
    requires |digits| > 0 && AllDigits(digits)
    ensures var v := if sign == "-" then -(DigitsValue(digits) as int) else DigitsValue(digits);
            ParseInt(sign + digits) == (if MinInt <= v <= MaxInt then Some(v) else None)
  {
    if sign == "" {
      ParseUnsignedDigits(digits);
    } else {
      ParseSignDigits(sign, digits);
    }
  }

  lemma ParseUnsignedDigits(digits: string)
    requires |digits| > 0 && AllDigits(digits)
    ensures ParseInt("" + digits) == (if DigitsValue(digits) <= MaxInt then Some(DigitsValue(digits) as int) else None)
  {
    assert "" + digits == digits;
    assert IsDigit(digits[0]);
  }

  lemma ParseSignDigits(sign: string, digits: string)
    requires sign == "+" || sign == "-"
    requires |digits| > 0 && AllDigits(digits)
    ensures var v := if sign == "-" then -(DigitsValue(digits) as int) else DigitsValue(digits);
            ParseInt(sign + digits) == (if MinInt <= v <= MaxInt then Some(v) else None)
  {
    if sign == "+" {
      ParsePlusDigits(digits);
    } else {
      ParseMinusDigits(digits);
    }
  }

  lemma ParsePlusDigits(digits: string)
    requires |digits| > 0 && AllDigits(digits)
    ensures ParseInt("+" + digits) == (if DigitsValue(digits) <= MaxInt then Some(DigitsValue(digits) as int) else None)
  {
    var s := "+" + digits;
    assert s[0] == '+' && s[1..] == digits;
  }

  lemma ParseMinusDigits(digits: string)
    requires |digits| > 0 && AllDigits(digits)
    ensures var v := -(DigitsValue(digits) as int);
            ParseInt("-" + digits) == (if MinInt <= v then Some(v) else None)
  {
    var s := "-" + digits;
    assert s[0] == '-' && s[1..] == digits;
  }

  /** Some inputs Atoi accepts or rejects. */
  lemma ParseExamples()
    ensures ParseInt("007") == Some(7)
    ensures ParseInt("-12") == Some(-12)
    ensures ParseInt("+3") == Some(3)
    ensures ParseInt("") == None && ParseInt("-") == None
    ensures ParseInt(" 1") == None && ParseInt("1.5") == None
  {
    assert DigitsValue("007") == 7 by {
      assert "007"[..2] == "00" && "00"[..1] == "0";
    }
    assert "-12"[1..] == "12" && DigitsValue("12") == 12 by {
      assert "12"[..1] == "1";
    }
    assert "+3"[1..] == "3";
    assert !IsDigit(" 1"[0]) && !IsDigit("1.5"[1]);
  }

  /** `intQueryParam`: the parsed value, or the default when the parameter
      is absent (the empty string) or not an integer. */
  function IntQueryParam(raw: string, default: int): (v: int)
    ensures raw == "" ==> v == default
    ensures ParseInt(raw).None? ==> v == default
    ensures ParseInt(raw).Some? ==> v == ParseInt(raw).value
  {
    if raw == "" then default
    else match ParseInt(raw)
      case None => default
      case Some(n) => n
  }

  /** A parameter holding the decimal text of an `int` yields that value. */
  lemma IntQueryParamFormatted(n: int, default: int)
    requires MinInt <= n <= MaxInt
    ensures IntQueryParam(FormatInt(n), default) == n
  {
    ParseFormatted(n);
  }

  // ---------------------------------------------------------------------
  // List: pagination and filters
  // ---------------------------------------------------------------------

  /** The raw query parameters of the list endpoint (absent ones empty). */
  datatype ListParams = ListParams(page: string, pageSize: string, search: string,
                                   assetClass: string, exchange: string, country: string)

  /** The optional filters, in the order the handler checks them. */
  datatype Filter = Search | AssetClass | Exchange | Country

  /** A WHERE condition: the active-instrument test, or a filter with the
      placeholder numbers its text refers to. */
  datatype Cond = Active | Match(filter: Filter, placeholders: seq<nat>)

  /** An argument bound to a placeholder. */
  datatype Arg = Text(text: string) | Number(n: int)

  /** What the list handler sends to the database. */
  datatype ListPlan = ListPlan(page: int, pageSize: int, offset: int,
                               conditions: seq<Cond>, countArgs: seq<Arg>,
                               dataArgs: seq<Arg>, limitPlaceholder: nat, offsetPlaceholder: nat)

  /** The filters requested, in order, each with the argument it binds: a
      trimmed value that is not empty selects its filter, and the search
      text is wrapped in `%` wildcards. */
  function Requested(search: string, assetClass: string, exchange: string, country: string): seq<(Filter, string)>
  {
    Optional(search, Search, "%" + search + "%")
    + Optional(assetClass, AssetClass, assetClass)
    + Optional(exchange, Exchange, exchange)
    + Optional(country, Country, country)
  }

  /** One filter with its argument when its value is not empty. */
  function Optional(value: string, filter: Filter, arg: string): seq<(Filter, string)> {
    if value != "" then [(filter, arg)] else []
  }

  function Rank(f: Filter): nat {
    match f
    case Search => 0
    case AssetClass => 1
    case Exchange => 2
    case Country => 3
  }

  /** The filters in `r` appear in the handler's fixed order. */
  predicate InOrder(r: seq<(Filter, string)>) {
    forall i, j :: 0 <= i < j < |r| ==> Rank(r[i].0) < Rank(r[j].0)
  }

  /** Filter `f` is among those in `r`. */
  predicate HasFilter(r: seq<(Filter, string)>, f: Filter) {
    exists i :: 0 <= i < |r| && r[i].0 == f
  }

  /** Every entry of `r` for filter `f` binds `arg`. */
  predicate BindsOnly(r: seq<(Filter, string)>, f: Filter, arg: string) {
    forall i :: 0 <= i < |r| && r[i].0 == f ==> r[i].1 == arg
  }

  /** Every rank in `r` is at least `lo` and below `hi`. */
  predicate RanksIn(r: seq<(Filter, string)>, lo: nat, hi: nat) {
    forall i :: 0 <= i < |r| ==> lo <= Rank(r[i].0) < hi
  }

  lemma OptionalOrder(value: string, filter: Filter, arg: string)
    ensures var r := Optional(value, filter, arg);
            |r| <= 1 && InOrder(r) && RanksIn(r, Rank(filter), Rank(filter) + 1)
  {}

  lemma OptionalHas(value: string, filter: Filter, arg: string, f: Filter)
    ensures HasFilter(Optional(value, filter, arg), f) <==> value != "" && f == filter
    ensures BindsOnly(Optional(value, filter, arg), filter, arg)
  {
    if value != "" && f == filter {
      assert Optional(value, filter, arg)[0].0 == f;
    }
  }

  lemma ConcatOrder(a: seq<(Filter, string)>, b: seq<(Filter, string)>, lo: nat, mid: nat, hi: nat)
    requires lo <= mid <= hi
    requires InOrder(a) && InOrder(b) && RanksIn(a, lo, mid) && RanksIn(b, mid, hi)
    ensures InOrder(a + b) && RanksIn(a + b, lo, hi)
  {
    var r := a + b;
    forall i | 0 <= i < |r| ensures lo <= Rank(r[i].0) < hi {
      if i < |a| {
        assert r[i] == a[i];
      } else {
        assert r[i] == b[i - |a|];
      }
    }
    forall i, j | 0 <= i < j < |r| ensures Rank(r[i].0) < Rank(r[j].0) {
      if j < |a| {
        assert r[i] == a[i] && r[j] == a[j];
      } else if i >= |a| {
        assert r[i] == b[i - |a|] && r[j] == b[j - |a|];
      } else {
        assert r[i] == a[i] && r[j] == b[j - |a|];
      }
    }
  }

  lemma ConcatHas(a: seq<(Filter, string)>, b: seq<(Filter, string)>, f: Filter)
    ensures HasFilter(a + b, f) <==> HasFilter(a, f) || HasFilter(b, f)
  {
    var r := a + b;
    if HasFilter(b, f) {
      var i :| 0 <= i < |b| && b[i].0 == f;
      assert r[|a| + i].0 == f;
    }
    if HasFilter(a, f) {
      var i :| 0 <= i < |a| && a[i].0 == f;
      assert r[i].0 == f;
    }
    if HasFilter(r, f) {
      var i :| 0 <= i < |r| && r[i].0 == f;
      if i >= |a| {
        assert r[i] == b[i - |a|];
      } else {
        assert r[i] == a[i];
      }
    }
  }

  lemma BindsOnlyConcat(a: seq<(Filter, string)>, b: seq<(Filter, string)>, f: Filter, arg: string)
    requires BindsOnly(a, f, arg) && !HasFilter(b, f)
    ensures BindsOnly(a + b, f, arg)
  {
    forall i | 0 <= i < |a + b| && (a + b)[i].0 == f ensures (a + b)[i].1 == arg {
      if i < |a| {
        assert (a + b)[i] == a[i];
      }
    }
  }

  /** The value the handler tests for filter `f`. */
  function ValueOf(f: Filter, search: string, assetClass: string, exchange: string, country: string): string {
    match f
    case Search => search
    case AssetClass => assetClass
    case Exchange => exchange
    case Country => country
  }

  /** At most one condition per filter, in the handler's fixed order. */
  lemma RequestedInOrder(search: string, assetClass: string, exchange: string, country: string)
    ensures var r := Requested(search, assetClass, exchange, country);
            |r| <= 4 && InOrder(r)
  {
    var a := Optional(search, Search, "%" + search + "%");
    var b := Optional(assetClass, AssetClass, assetClass);
    var c := Optional(exchange, Exchange, exchange);
    var d := Optional(country, Country, country);
    OptionalOrder(search, Search, "%" + search + "%");
    OptionalOrder(assetClass, AssetClass, assetClass);
    OptionalOrder(exchange, Exchange, exchange);
    OptionalOrder(country, Country, country);
    ConcatOrder(a, b, 0, 1, 2);
    ConcatOrder(a + b, c, 0, 2, 3);
    ConcatOrder(a + b + c, d, 0, 3, 4);
  }

  /** A filter is applied exactly when its trimmed value is not empty. */
  lemma RequestedExactly(search: string, assetClass: string, exchange: string, country: string, f: Filter)
    ensures HasFilter(Requested(search, assetClass, exchange, country), f)
            <==> ValueOf(f, search, assetClass, exchange, country) != ""
  {
    var a := Optional(search, Search, "%" + search + "%");
    var b := Optional(assetClass, AssetClass, assetClass);
    var c := Optional(exchange, Exchange, exchange);
    var d := Optional(country, Country, country);
    OptionalHas(search, Search, "%" + search + "%", f);
    OptionalHas(assetClass, AssetClass, assetClass, f);
    OptionalHas(exchange, Exchange, exchange, f);
    OptionalHas(country, Country, country, f);
    ConcatHas(a, b, f);
    ConcatHas(a + b, c, f);
    ConcatHas(a + b + c, d, f);
  }

  /** The search filter binds the search text between `%` wildcards. */
  lemma RequestedSearchPattern(search: string, assetClass: string, exchange: string, country: string)
    ensures BindsOnly(Requested(search, assetClass, exchange, country), Search, "%" + search + "%")
  {
    var a := Optional(search, Search, "%" + search + "%");
    var b := Optional(assetClass, AssetClass, assetClass);
    var c := Optional(exchange, Exchange, exchange);
    var d := Optional(country, Country, country);
    OptionalHas(search, Search, "%" + search + "%", Search);
    OptionalHas(assetClass, AssetClass, assetClass, Search);
    OptionalHas(exchange, Exchange, exchange, Search);
    OptionalHas(country, Country, country, Search);
    ConcatHas(b, c, Search);
    ConcatHas(b + c, d, Search);
    BindsOnlyConcat(a, b + c + d, Search, "%" + search + "%");
    assert a + b + c + d == a + (b + c + d);
  }

  /** Condition i (counting the active test as 0) is a filter whose
      placeholders all read argument i, the i-th in 1-based numbering. */
  predicate Numbered(conditions: seq<Cond>) {
    && |conditions| > 0 && conditions[0] == Active
    && forall i :: 1 <= i < |conditions| ==>
         conditions[i].Match? && forall p :: p in conditions[i].placeholders ==> p == i
  }

  /** A search condition names its placeholder twice (symbol and name); the
      other filters once. */
  predicate PlaceholderUses(conditions: seq<Cond>) {
    forall i :: 0 <= i < |conditions| && conditions[i].Match? ==>
      |conditions[i].placeholders| == (if conditions[i].filter == Search then 2 else 1)
  }

  /** The page-size rule: below 1 becomes 50, above 200 becomes 200. */
  function ClampPageSize(requested: int): (size: int)
    ensures 1 <= size <= 200
    ensures 1 <= requested <= 200 ==> size == requested
  {
    if requested < 1 then 50 else if requested > 200 then 200 else requested
  }

  /** The row offset of a page: the rows of the pages before it. */
  predicate RowOffset(page: int, pageSize: int, offset: int) {
    offset == (page - 1) * pageSize
  }

  /** The page and page size `List` settles on: the first page for a page
      number below 1, the page size clamped into 1..200, and the row offset
      of the page. */
  method Paginate(pageParam: string, pageSizeParam: string) returns (page: int, pageSize: int, offset: int)
    ensures page >= 1 && 1 <= pageSize <= 200
    ensures RowOffset(page, pageSize, offset) && offset >= 0
    ensures page == (if IntQueryParam(pageParam, 1) < 1 then 1 else IntQueryParam(pageParam, 1))
    ensures pageSize == ClampPageSize(IntQueryParam(pageSizeParam, 50))
  {
    page := IntQueryParam(pageParam, 1);
    if page < 1 {
      page := 1;
    }
    pageSize := IntQueryParam(pageSizeParam, 50);
    if pageSize < 1 {
      pageSize := 50;
    }
    if pageSize > 200 {
      pageSize := 200;
    }
    offset := (page - 1) * pageSize;
    MulNonNegativeInt(page - 1, pageSize);
  }

  /** Go's `int` arithmetic: a result is reduced modulo 2^64 into
      [MinInt, MaxInt]. */
  function Wrap(x: int): (r: int)
    ensures MinInt <= r <= MaxInt
    ensures MinInt <= x <= MaxInt ==> r == x
    ensures (x - r) % 0x1_0000_0000_0000_0000 == 0
  {
    var q := (x - MinInt) / 0x1_0000_0000_0000_0000;
    assert x - ((x - MinInt) % 0x1_0000_0000_0000_0000 + MinInt) == q * 0x1_0000_0000_0000_0000;
    (x - MinInt) % 0x1_0000_0000_0000_0000 + MinInt
  }

  /** The row offset as `List` computes it, in 64-bit arithmetic. */
  function WrappedOffset(page: int, pageSize: int): int {
    Wrap((page - 1) * pageSize)
  }

  /** The page number is bounded only below, so the largest one `Atoi`
      accepts makes the 64-bit offset wrap to a negative number. */
  lemma OffsetOverflows()
    ensures IntQueryParam(FormatInt(MaxInt), 1) == MaxInt
    ensures ClampPageSize(IntQueryParam(FormatInt(200), 50)) == 200
    ensures WrappedOffset(MaxInt, 200) == -400
  {
    IntQueryParamFormatted(MaxInt, 1);
    IntQueryParamFormatted(200, 50);
    OffsetAtMaxPage();
  }

  lemma OffsetAtMaxPage()
    ensures WrappedOffset(MaxInt, 200) == -400
  {
    var x := (MaxInt - 1) * 200;
    assert x == 100 * 0x1_0000_0000_0000_0000 - 400;
    assert x - MinInt == 100 * 0x1_0000_0000_0000_0000 + (0x8000_0000_0000_0000 - 400);
    assert (x - MinInt) % 0x1_0000_0000_0000_0000 == 0x8000_0000_0000_0000 - 400;
  }

  /** Below that bound the 64-bit offset is the exact one `Paginate` uses. */
  lemma OffsetExactBelowBound(page: int, pageSize: int)
    requires 1 <= page <= MaxInt / 200 + 1 && 1 <= pageSize <= 200
    ensures WrappedOffset(page, pageSize) == (page - 1) * pageSize
  {
    ProductBound(page - 1, pageSize);
  }

  /** The largest page whose 64-bit offset cannot wrap for any page size. */
  const MaxPage := MaxInt / 200 + 1

  /** The intended pagination: as `Paginate`, but with the page also capped
      at MaxPage, so that the offset computed in 64-bit arithmetic is the
      exact, non-negative (page-1)·pageSize. */
  method BoundedPaginate(pageParam: string, pageSizeParam: string) returns (page: int, pageSize: int, offset: int)
    ensures 1 <= page <= MaxPage && 1 <= pageSize <= 200
    ensures var requested := IntQueryParam(pageParam, 1);
            page == (if requested < 1 then 1 else if requested > MaxPage then MaxPage else requested)
    ensures pageSize == ClampPageSize(IntQueryParam(pageSizeParam, 50))
    ensures offset == WrappedOffset(page, pageSize)
    ensures offset == (page - 1) * pageSize && offset >= 0
  {
    page := IntQueryParam(pageParam, 1);
    if page < 1 {
      page := 1;
    }
    if page > MaxPage {
      page := MaxPage;
    }
    pageSize := IntQueryParam(pageSizeParam, 50);
    if pageSize < 1 {
      pageSize := 50;
    }
    if pageSize > 200 {
      pageSize := 200;
    }
    offset := WrappedOffset(page, pageSize);
    OffsetExactBelowBound(page, pageSize);
    MulNonNegativeInt(page - 1, pageSize);
  }

  lemma ProductBound(a: int, b: int)
    requires 0 <= a <= MaxInt / 200 && 1 <= b <= 200
    ensures 0 <= a * b <= MaxInt
  {
    MulNonNegativeInt(a, 200 - b);
    assert a * b == a * 200 - a * (200 - b);
  }

  /** The conditions after the active test, and their arguments, are the
      requested filters in order. */
  predicate Mirrors(conditions: seq<Cond>, args: seq<Arg>, wanted: seq<(Filter, string)>) {
    && |conditions| == |args| + 1 && |args| == |wanted|
    && forall i :: 0 <= i < |wanted| ==>
         conditions[i + 1].Match? && conditions[i + 1].filter == wanted[i].0 && args[i] == Text(wanted[i].1)
  }

  /** Appends one filter condition and its argument, numbering it argIdx. */
  method AddFilter(conditions: seq<Cond>, args: seq<Arg>, argIdx: nat, filter: Filter, arg: string,
                   ghost wanted: seq<(Filter, string)>)
    returns (conditions': seq<Cond>, args': seq<Arg>, argIdx': nat)
    requires Numbered(conditions) && PlaceholderUses(conditions) && Mirrors(conditions, args, wanted)
    requires argIdx == |args| + 1
    ensures Numbered(conditions') && PlaceholderUses(conditions') && Mirrors(conditions', args', wanted + [(filter, arg)])
    ensures argIdx' == |args'| + 1
  {
    var uses := if filter == Search then [argIdx, argIdx] else [argIdx];
    conditions' := conditions + [Match(filter, uses)];
    args' := args + [Text(arg)];
    argIdx' := argIdx + 1;
  }

  /** Adds the filter when its value is not empty (one `if` of `List`). */
  method AddFilterIfSet(conditions: seq<Cond>, args: seq<Arg>, argIdx: nat, value: string, filter: Filter,
                        arg: string, ghost wanted: seq<(Filter, string)>)
    returns (conditions': seq<Cond>, args': seq<Arg>, argIdx': nat)
    requires Numbered(conditions) && PlaceholderUses(conditions) && Mirrors(conditions, args, wanted)
    requires argIdx == |args| + 1
    ensures Numbered(conditions') && PlaceholderUses(conditions')
    ensures Mirrors(conditions', args', wanted + Optional(value, filter, arg))
    ensures argIdx' == |args'| + 1
  {
    conditions', args', argIdx' := conditions, args, argIdx;
    if value != "" {
      conditions', args', argIdx' := AddFilter(conditions, args, argIdx, filter, arg, wanted);
    } else {
      assert wanted + Optional(value, filter, arg) == wanted;
    }
  }

  /** The WHERE conditions and their arguments, built as `List` does: the
      active test first, then one condition per non-empty trimmed filter,
      each taking the next placeholder number. */
  method BuildFilters(search: string, assetClass: string, exchange: string, country: string)
    returns (conditions: seq<Cond>, args: seq<Arg>, argIdx: nat)
    ensures Numbered(conditions) && PlaceholderUses(conditions) && argIdx == |args| + 1
    ensures Mirrors(conditions, args, Requested(TrimSpace(search), TrimSpace(assetClass), TrimSpace(exchange), TrimSpace(country)))
  {
    var search := TrimSpace(search);
    var assetClass := TrimSpace(assetClass);
    var exchange := TrimSpace(exchange);
    var country := TrimSpace(country);
    conditions, args, argIdx := [Active], [], 1;
    ghost var w0 := Optional(search, Search, "%" + search + "%");
    ghost var w1 := Optional(assetClass, AssetClass, assetClass);
    ghost var w2 := Optional(exchange, Exchange, exchange);
    ghost var w3 := Optional(country, Country, country);
    conditions, args, argIdx := AddFilterIfSet(conditions, args, argIdx, search, Search, "%" + search + "%", []);
    assert [] + w0 == w0;
    conditions, args, argIdx := AddFilterIfSet(conditions, args, argIdx, assetClass, AssetClass, assetClass, w0);
    conditions, args, argIdx := AddFilterIfSet(conditions, args, argIdx, exchange, Exchange, exchange, w0 + w1);
    conditions, args, argIdx := AddFilterIfSet(conditions, args, argIdx, country, Country, country, w0 + w1 + w2);
  }

  /** The arguments of the data query: the filter arguments, then the page
      size and the offset. */
  function PagedArgs(args: seq<Arg>, pageSize: int, offset: int): (r: seq<Arg>)
    ensures |r| == |args| + 2 && r[..|args|] == args
    ensures r[|args|] == Number(pageSize) && r[|args| + 1] == Number(offset)
  {
    args + [Number(pageSize), Number(offset)]
  }

  /** `List`'s parameter logic: pagination, the conditions and their
      arguments, and the LIMIT and OFFSET placeholders, which take the next
      two numbers and bind the page size and then the offset. */
  method List(params: ListParams) returns (plan: ListPlan)
    ensures plan.page >= 1 && 1 <= plan.pageSize <= 200 && RowOffset(plan.page, plan.pageSize, plan.offset)
    ensures plan.page == (if IntQueryParam(params.page, 1) < 1 then 1 else IntQueryParam(params.page, 1))
    ensures plan.pageSize == ClampPageSize(IntQueryParam(params.pageSize, 50))
    ensures Numbered(plan.conditions) && PlaceholderUses(plan.conditions)
    ensures Mirrors(plan.conditions, plan.countArgs,
                    Requested(TrimSpace(params.search), TrimSpace(params.assetClass),
                              TrimSpace(params.exchange), TrimSpace(params.country)))
    ensures plan.limitPlaceholder == |plan.countArgs| + 1 && plan.offsetPlaceholder == plan.limitPlaceholder + 1
    ensures |plan.dataArgs| == plan.offsetPlaceholder
    ensures plan.dataArgs[..|plan.countArgs|] == plan.countArgs
    ensures plan.dataArgs[plan.limitPlaceholder - 1] == Number(plan.pageSize)
    ensures plan.dataArgs[plan.offsetPlaceholder - 1] == Number(plan.offset)
  {
    var page, pageSize, offset := Paginate(params.page, params.pageSize);
    var conditions, args, argIdx := BuildFilters(params.search, params.assetClass, params.exchange, params.country);
    var dataArgs := PagedArgs(args, pageSize, offset);
    assert dataArgs[argIdx - 1] == Number(pageSize) && dataArgs[argIdx] == Number(offset);
    plan := ListPlan(page, pageSize, offset, conditions, args, dataArgs, argIdx, argIdx + 1);
  }

  /** Every placeholder a list query uses names one of its arguments: those
      of the conditions name count arguments, and LIMIT and OFFSET name the
      two arguments after them. */
  lemma PlaceholdersInRange(conditions: seq<Cond>, countArgs: nat)
    requires Numbered(conditions) && |conditions| == countArgs + 1
    ensures forall i, p :: 0 <= i < |conditions| && conditions[i].Match? && p in conditions[i].placeholders ==>
              1 <= p <= countArgs
  {}

  /** A real number rounded up. */
  function Ceil(x: real): (n: int)
    ensures (n - 1) as real < x <= n as real
  {
    -((-x).Floor)
  }

  /** `totalPages`: the row count over the page size, rounded up. */
  function TotalPages(totalCount: int, pageSize: int): (n: int)
    requires pageSize >= 1
  {
    Ceil(totalCount as real / pageSize as real)
  }

  /** The page count is the least number of pages that hold all rows: n
      pages hold them and n - 1 do not. For a non-negative count it is the
      integer quotient rounded up, and an empty result has no pages. */
  lemma TotalPagesCover(totalCount: int, pageSize: int)
    requires pageSize >= 1
    ensures (TotalPages(totalCount, pageSize) - 1) * pageSize < totalCount <= TotalPages(totalCount, pageSize) * pageSize
    ensures totalCount >= 0 ==> TotalPages(totalCount, pageSize) == (totalCount + pageSize - 1) / pageSize
    ensures totalCount == 0 ==> TotalPages(totalCount, pageSize) == 0
  {
    var n := TotalPages(totalCount, pageSize);
    var x := totalCount as real / pageSize as real;
    assert (n - 1) as real < x <= n as real;
    ScaleByPageSize(n - 1, x, pageSize);
    ScaleByPageSize(n, x, pageSize);
    assert x * pageSize as real == totalCount as real;
    if totalCount >= 0 {
      CeilingDivision(totalCount, pageSize, n);
    }
  }

  lemma ScaleByPageSize(m: int, x: real, pageSize: int)
    requires pageSize >= 1
    ensures m as real < x ==> m as real * pageSize as real < x * pageSize as real
    ensures x <= m as real ==> x * pageSize as real <= m as real * pageSize as real
  {}

  lemma CeilingDivision(c: int, p: int, n: int)
    requires c >= 0 && p >= 1 && (n - 1) * p < c <= n * p
    ensures n == (c + p - 1) / p
  {
    var q := (c + p - 1) / p;
    var r := (c + p - 1) % p;
    assert c + p - 1 == q * p + r && 0 <= r < p;
    assert (n - 1) * p == n * p - p && (q + 1) * p == q * p + p && (q - 1) * p == q * p - p;
    FactorOrder(n, q + 1, p);
    FactorOrder(q - 1, n, p);
  }

  lemma FactorOrder(a: int, b: int, p: int)
    requires p >= 1 && a * p < b * p
    ensures a < b
  {}

  // ---------------------------------------------------------------------
  // Prices, Fundamentals, Detail
  // ---------------------------------------------------------------------

  /** The bar intervals the price endpoint accepts. */
  const Intervals: set<string> := {"1min", "5min", "15min", "1h", "1d", "1w", "1m"}

  const IntervalError := "interval must be one of: 1min, 5min, 15min, 1h, 1d, 1w, 1m"
  const SymbolError := "symbol is required"

  /** The interval rule of `Prices`: absent means "1d"; anything outside the
      seven listed intervals is rejected. */
  function ValidateInterval(raw: string): (r: Result<string>)
    ensures r.Ok? <==> raw == "" || raw in Intervals
    ensures r.Ok? ==> r.value in Intervals && r.value == (if raw == "" then "1d" else raw)
    ensures r.Err? ==> r.message == IntervalError
  {
    var interval := if raw == "" then "1d" else raw;
    if interval in Intervals then Ok(interval) else Err(IntervalError)
  }

  /** A value inside [lo, hi] is kept; any other is replaced by the default
      (unlike the page size, which is clamped). */
  function LimitOrDefault(v: int, lo: int, hi: int, default: int): (r: int)
    requires lo <= default <= hi
    ensures lo <= r <= hi
    ensures lo <= v <= hi ==> r == v
    ensures !(lo <= v <= hi) ==> r == default
  {
    if v < lo || v > hi then default else v
  }

  /** The bar limit of `Prices`: 500 unless a value in 1..5000 is given. */
  function PriceLimit(raw: string): (limit: int)
    ensures 1 <= limit <= 5000
  {
    LimitOrDefault(IntQueryParam(raw, 500), 1, 5000, 500)
  }

  /** The row limit of `Fundamentals`: 20 unless a value in 1..100 is given. */
  function FundamentalsLimit(raw: string): (limit: int)
    ensures 1 <= limit <= 100
  {
    LimitOrDefault(IntQueryParam(raw, 20), 1, 100, 20)
  }

  /** An in-range limit is taken as given, an out-of-range one falls back to
      the default rather than to the nearest bound, and so does one that is
      not a number. */
  lemma LimitsHonoured(n: int)
    requires MinInt <= n <= MaxInt
    ensures PriceLimit(FormatInt(n)) == (if 1 <= n <= 5000 then n else 500)
    ensures FundamentalsLimit(FormatInt(n)) == (if 1 <= n <= 100 then n else 20)
    ensures ClampPageSize(IntQueryParam(FormatInt(n), 50)) == (if n < 1 then 50 else if n > 200 then 200 else n)
  {
    IntQueryParamFormatted(n, 500);
    IntQueryParamFormatted(n, 20);
    IntQueryParamFormatted(n, 50);
  }

  /** The symbol rule shared by `Detail`, `Profile`, `Fundamentals` and
      `Prices`: upper-cased, and rejected when empty. */
  function NormalizeSymbol(raw: string): (r: Result<string>)
    ensures r.Err? <==> raw == ""
    ensures r.Err? ==> r.message == SymbolError
    ensures r.Ok? ==> |r.value| == |raw| && forall i :: 0 <= i < |raw| ==> r.value[i] == UpperChar(raw[i])
  {
    var symbol := Upper(raw);
    if symbol == "" then Err(SymbolError) else Ok(symbol)
  }

  /** A normalised symbol has no ASCII small letters and normalises to
      itself. */
  lemma NormalizeSymbolIdempotent(raw: string)
    requires NormalizeSymbol(raw).Ok?
    ensures NormalizeSymbol(NormalizeSymbol(raw).value) == NormalizeSymbol(raw)
    ensures forall i :: 0 <= i < |raw| ==> !('a' <= NormalizeSymbol(raw).value[i] <= 'z')
  {
    UpperIdempotent(raw);
  }

  /** The checked parameters of a price request. */
  datatype PriceQuery = PriceQuery(symbol: string, interval: string, limit: int)

  /** `Prices` up to the database: the symbol is checked first, then the
      interval; the limit never fails. */
  function PricesParams(symbolParam: string, intervalParam: string, limitParam: string): (r: Result<PriceQuery>)
    ensures symbolParam == "" ==> r == Err(SymbolError)
    ensures symbolParam != "" ==> (r.Ok? <==> ValidateInterval(intervalParam).Ok?)
    ensures symbolParam != "" && r.Err? ==> r.message == IntervalError
    ensures r.Ok? ==> r.value.interval in Intervals && 1 <= r.value.limit <= 5000
    ensures r.Ok? ==> r.value == PriceQuery(Upper(symbolParam), ValidateInterval(intervalParam).value, PriceLimit(limitParam))
  {
    match NormalizeSymbol(symbolParam)
    case Err(e) => Err(e)
    case Ok(symbol) =>
      match ValidateInterval(intervalParam)
      case Err(e) => Err(e)
      case Ok(interval) => Ok(PriceQuery(symbol, interval, PriceLimit(limitParam)))
  }

  /** The checked parameters of a fundamentals request. */
  datatype FundamentalsQuery = FundamentalsQuery(symbol: string, limit: int)

  /** `Fundamentals` up to the database: the symbol check, then the limit. */
  function FundamentalsParams(symbolParam: string, limitParam: string): (r: Result<FundamentalsQuery>)
    ensures r.Err? <==> symbolParam == ""
    ensures r.Err? ==> r.message == SymbolError
    ensures r.Ok? ==> 1 <= r.value.limit <= 100 && |r.value.symbol| == |symbolParam|
    ensures r.Ok? ==> r.value == FundamentalsQuery(Upper(symbolParam), FundamentalsLimit(limitParam))
  {
    match NormalizeSymbol(symbolParam)
    case Err(e) => Err(e)
    case Ok(symbol) => Ok(FundamentalsQuery(symbol, FundamentalsLimit(limitParam)))
  }
}
