/**
 * The limit resolver:
 *   try: min(int(request.args.get("limit", "")), MAXIMUM_LIMIT)
 *   except ValueError: DEFAULT_LIMIT
 * together with the integer syntax `int()` accepts here.
 */
module Limits {
  import opened Wrappers
  import opened Domain

  /** The view's class constants, read from the environment at import time. */
  datatype Config = Config(labelMinimum: int, defaultLimit: int, maximumLimit: int)

  /** LABEL_MINIMUM, DEFAULT_LIMIT and MAXIMUM_LIMIT when the environment sets none of them. */
  const DefaultConfig := Config(3, 5, 25)

  function Min(a: int, b: int): int { if a <= b then a else b }

  predicate IsDigit(c: char) { '0' <= c <= '9' }

  predicate AllDigits(s: string) { forall i :: 0 <= i < |s| ==> IsDigit(s[i]) }

  predicate IsSign(c: char) { c == '+' || c == '-' }

  /** What `int()` accepts in this model: an optional sign followed by one or more digits. */
  predicate IsIntLiteral(s: string) {
    if |s| > 0 && IsSign(s[0]) then |s| > 1 && AllDigits(s[1..])
    else |s| > 0 && AllDigits(s)
  }

  /** The decimal value of a string of digits. */
  function DigitsValue(ds: string): nat
    requires AllDigits(ds)
  {
    if ds == [] then 0
    else DigitsValue(ds[..|ds| - 1]) * 10 + (ds[|ds| - 1] as int - '0' as int)
  }

  /** `int(s)`: `None` stands for the `ValueError` it raises. */
  function ParseInt(s: string): (r: Option<int>)
    ensures r.Some? <==> IsIntLiteral(s)
    ensures r.Some? && s[0] != '-' ==> r.value >= 0
    ensures r.Some? && s[0] == '-' ==> r.value <= 0
  {
    if |s| > 0 && IsSign(s[0]) then
      if |s| > 1 && AllDigits(s[1..]) then
        var v: int := DigitsValue(s[1..]);
        Some(if s[0] == '-' then -v else v)
      else None
    else if |s| > 0 && AllDigits(s) then Some(DigitsValue(s))
    else None
  }

  /** `str(n)` for a natural number: its decimal digits, most significant first. */
  function FormatNat(n: nat): (s: string)
    ensures |s| > 0 && AllDigits(s)
    ensures n > 0 ==> s[0] != '0'
  {
    var d := [('0' as int + n % 10) as char];
    if n < 10 then d else FormatNat(n / 10) + d
  }

  /** `str(n)` for any integer. */
  function FormatInt(n: int): (s: string)
    ensures IsIntLiteral(s)
  {
    if n < 0 then "-" + FormatNat(-n) else FormatNat(n)
  }

  lemma {:induction false} DigitsValueOfFormat(n: nat)
    ensures DigitsValue(FormatNat(n)) == n
  {
    if n >= 10 {
      DigitsValueOfFormat(n / 10);
      var s := FormatNat(n);
      assert s[..|s| - 1] == FormatNat(n / 10);
    }
  }

  /** `k` zero digits. */
  function Zeros(k: nat): (z: string)
    ensures |z| == k && AllDigits(z)
    ensures forall i :: 0 <= i < k ==> z[i] == '0'
  {
    seq(k, _ => '0')
  }

  lemma {:induction false} DigitsValueZeros(k: nat)
    ensures DigitsValue(Zeros(k)) == 0
  {
    if k > 0 {
      assert Zeros(k)[..k - 1] == Zeros(k - 1);
      DigitsValueZeros(k - 1);
    }
  }

  /** Leading zeros do not change the value of a digit string. */
  lemma {:induction false} DigitsValueLeadingZeros(k: nat, ds: string)
    requires AllDigits(ds)
    ensures AllDigits(Zeros(k) + ds) && DigitsValue(Zeros(k) + ds) == DigitsValue(ds)
  {
    var s := Zeros(k) + ds;
    if ds == [] {
      assert s == Zeros(k);
      DigitsValueZeros(k);
    } else {
      assert s[..|s| - 1] == Zeros(k) + ds[..|ds| - 1];
      DigitsValueLeadingZeros(k, ds[..|ds| - 1]);
    }
  }

  /**
   * The value of every literal `int()` accepts here: an optional sign, any
   * number of leading zeros, then the decimal digits of `n`.
   */
  lemma ParseAnyLiteral(k: nat, n: nat)
    ensures ParseInt(Zeros(k) + FormatNat(n)) == Some(n)
    ensures ParseInt("+" + (Zeros(k) + FormatNat(n))) == Some(n)
    ensures ParseInt("-" + (Zeros(k) + FormatNat(n))).Some? && ParseInt("-" + (Zeros(k) + FormatNat(n))).value == -(n as int)
  {
    DigitsValueOfFormat(n);
    ParseLeadingZeros(k, FormatNat(n));
  }

  /** Leading zeros, signed or not, leave the parsed value of a digit string unchanged. */
  lemma ParseLeadingZeros(k: nat, ds: string)
    requires |ds| > 0 && AllDigits(ds)
    ensures ParseInt(Zeros(k) + ds) == Some(DigitsValue(ds))
    ensures ParseInt("+" + (Zeros(k) + ds)) == Some(DigitsValue(ds))
    ensures ParseInt("-" + (Zeros(k) + ds)).Some? && ParseInt("-" + (Zeros(k) + ds)).value == -(DigitsValue(ds) as int)
  {
    DigitsValueLeadingZeros(k, ds);
    ParseDigits(Zeros(k) + ds);
  }

  /** A digit string parses to its value, with or without a sign in front. */
  lemma ParseDigits(ds: string)
    requires |ds| > 0 && AllDigits(ds)
    ensures ParseInt(ds) == Some(DigitsValue(ds))
    ensures ParseInt("+" + ds) == Some(DigitsValue(ds))
    ensures ParseInt("-" + ds) == Some(-(DigitsValue(ds) as int))
  {
    assert IsDigit(ds[0]);
    assert ("+" + ds)[1..] == ds;
    assert ("-" + ds)[1..] == ds;
  }

  /** Parsing what `str` prints gives the number back. */
  lemma ParseFormatRoundTrip(n: int)
    ensures ParseInt(FormatInt(n)) == Some(n)
  {
    if n < 0 {
      DigitsValueOfFormat(-n);
      assert FormatInt(n)[1..] == FormatNat(-n);
    } else {
      DigitsValueOfFormat(n);
    }
  }

  /**
   * `_get_limit` as written: the parsed value capped at the maximum, or the
   * default when parsing fails. Nothing rejects zero or negative values.
   */
  function GetLimit(cfg: Config, args: Args): (r: int)
    ensures r <= cfg.maximumLimit || r == cfg.defaultLimit
    ensures !IsIntLiteral(Param(args, "limit")) ==> r == cfg.defaultLimit
    ensures IsIntLiteral(Param(args, "limit")) ==> r == Min(ParseInt(Param(args, "limit")).value, cfg.maximumLimit)
  {
    match ParseInt(Param(args, "limit"))
    case None => cfg.defaultLimit
    case Some(n) => Min(n, cfg.maximumLimit)
  }

  /** A request whose limit is the printed integer `n` gets `min(n, MAXIMUM_LIMIT)`, for every `n`. */
  lemma GetLimitOfInteger(cfg: Config, args: Args, n: int)
    ensures GetLimit(cfg, args["limit" := FormatInt(n)]) == Min(n, cfg.maximumLimit)
  {
    ParseFormatRoundTrip(n);
  }

  /** With a sane configuration the result never exceeds the maximum. */
  lemma GetLimitAtMostMaximum(cfg: Config, args: Args)
    requires cfg.defaultLimit <= cfg.maximumLimit
    ensures GetLimit(cfg, args) <= cfg.maximumLimit
  {
  }

  /** The test table's rows that the code satisfies, with DEFAULT_LIMIT 10 and MAXIMUM_LIMIT 25. */
  lemma GetLimitExamples()
    ensures GetLimit(Config(3, 10, 25), map["limit" := "10"]) == 10
    ensures GetLimit(Config(3, 10, 25), map["limit" := "26"]) == 25
    ensures GetLimit(Config(3, 10, 25), map["limit" := "1"]) == 1
    ensures GetLimit(Config(3, 10, 25), map["limit" := "seven"]) == 10
  {
    GetLimitOfInteger(Config(3, 10, 25), map[], 10);
    GetLimitOfInteger(Config(3, 10, 25), map[], 26);
    GetLimitOfInteger(Config(3, 10, 25), map[], 1);
    assert !IsIntLiteral("seven") by { assert !IsDigit('s'); }
  }

  /**
   * The docstring promises a number > 0 and the tests expect the default for
   * "0" and "-1", but the code returns the parsed value itself: every
   * non-positive integer gets through.
   */
  lemma GetLimitNonPositiveGap(cfg: Config, n: int)
    requires n <= 0 && n <= cfg.maximumLimit
    ensures GetLimit(cfg, map["limit" := FormatInt(n)]) == n
    ensures GetLimit(Config(3, 10, 25), map["limit" := "0"]) == 0
    ensures GetLimit(Config(3, 10, 25), map["limit" := "-1"]) == -1
  {
    GetLimitOfInteger(cfg, map[], n);
    GetLimitOfInteger(Config(3, 10, 25), map[], 0);
    GetLimitOfInteger(Config(3, 10, 25), map[], -1);
  }

  /**
   * The limit rule the test table fixes: a positive integer capped at the
   * maximum, anything else the default.
   */
  function ResolveLimit(cfg: Config, args: Args): (r: int)
    ensures r == cfg.defaultLimit || r == cfg.maximumLimit || 0 < r < cfg.maximumLimit
    ensures ParseInt(Param(args, "limit")) == None ==> r == cfg.defaultLimit
    ensures forall n :: ParseInt(Param(args, "limit")) == Some(n) && n > 0 ==> r == Min(n, cfg.maximumLimit)
    ensures forall n :: ParseInt(Param(args, "limit")) == Some(n) && n <= 0 ==> r == cfg.defaultLimit
  {
    match ParseInt(Param(args, "limit"))
    case Some(n) => if n > 0 then Min(n, cfg.maximumLimit) else cfg.defaultLimit
    case None => cfg.defaultLimit
  }

  /**
   * With a default in 1..MAXIMUM_LIMIT the intended rule always yields a
   * limit in that range, it agrees with the code wherever the code is
   * right, and it meets the test rows the code fails.
   */
  lemma ResolveLimitInRange(cfg: Config, args: Args)
    requires 0 < cfg.defaultLimit <= cfg.maximumLimit
    ensures 0 < ResolveLimit(cfg, args) <= cfg.maximumLimit
    ensures GetLimit(cfg, args) > 0 ==> ResolveLimit(cfg, args) == GetLimit(cfg, args)
    ensures ResolveLimit(Config(3, 10, 25), map["limit" := "0"]) == 10
    ensures ResolveLimit(Config(3, 10, 25), map["limit" := "-1"]) == 10
  {
    ParseFormatRoundTrip(0);
    ParseFormatRoundTrip(-1);
  }
}
