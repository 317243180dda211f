/** The /api/search query-string parameters (server/src/index.ts:69-71): q is lower-cased,
    `limit` and `offset` go through `parseInt(..., 10) || default`. A raw parameter is
    None when it is absent from the request. */
module SearchParams {
  import opened Wrappers
  import opened Seqs
  import opened Decimal
  import opened Matcher

  /** String(raw || fallback) */
  function Text(raw: Option<string>, fallback: string): string {
    if raw.None? || raw.value == "" then fallback else raw.value
  }

  /** normalizeText(String(req.query.q || '')) */
  function NormalizeQuery(fold: CaseMap, rawQ: Option<string>): (q: string)
    ensures q == [] <==> Text(rawQ, "") == []
  {
    Lower(fold, Text(rawQ, ""))
  }

  /** Math.min(parseInt(String(limit || '20'), 10) || 20, 100). An absent or empty limit
      is parsed from the default text '20', which reads as 20 (DefaultLimitParses). */
  function LimitParam(raw: Option<string>): (limit: int)
    ensures limit != 0 && limit <= 100
    ensures raw.None? || raw == Some("") ==> limit == 20
  {
    DefaultLimitParses();
    LimitOr20(ParseInt(Text(raw, "20")))
  }

  /** `p || 20` capped by Math.min(..., 100): NaN and 0 are falsy. */
  function LimitOr20(p: ParsedInt): (limit: int)
    ensures limit != 0 && limit <= 100
  {
    match p
    case NaN => 20
    case Number(n) => if n == 0 then 20 else Min(n, 100)
  }

  /** parseInt(String(offset || '0'), 10) || 0. An absent or empty offset is parsed from
      the default text '0', which reads as 0 (DefaultOffsetParses). */
  function OffsetParam(raw: Option<string>): (offset: int)
    ensures raw.None? || raw == Some("") ==> offset == 0
  {
    DefaultOffsetParses();
    OffsetOr0(ParseInt(Text(raw, "0")))
  }

  /** `p || 0`: NaN is falsy. */
  function OffsetOr0(p: ParsedInt): int {
    match p
    case NaN => 0
    case Number(n) => n
  }

  /** The default limit text parses to 20. */
  lemma DefaultLimitParses()
    ensures ParseInt("20") == Number(20)
  {
    var t := "20";
    assert DigitRun(t) == 2 by {
      assert t[1..][1..] == [];
      assert DigitRun(t[1..][1..]) == 0;
    }
    assert ValueOf(t[..2]) == 20 by {
      assert t[..2] == t && t[..|t| - 1] == ['2'];
      assert ValueOf(['2']) == 2;
    }
    assert TrimStart(t) == t by {
      assert !IsStrWhiteSpace(t[0]);
    }
    assert ParseSigned(t) == ParseDigits(t);
  }

  /** The default offset text parses to 0. */
  lemma DefaultOffsetParses()
    ensures ParseInt("0") == Number(0)
  {
    ParseIntOfDecimal("", 0, "");
    EmptyWrap(FromNat(0));
    assert FromNat(0) == ['0'];
  }

  /** A decimal limit, unsigned or with "+", is taken as written up to 100 and capped
      there; 0 falls back to 20; a negative limit passes through. Leading white space and trailing text do not matter. */
  lemma {:induction false} LimitOfDecimal(ws: string, n: nat, rest: string)
    requires AllWhiteSpace(ws)
    requires rest == [] || !IsDigit(rest[0])
    ensures LimitParam(Some(ws + FromNat(n) + rest)) == if n == 0 then 20 else Min(n, 100)
    ensures LimitParam(Some(ws + "+" + FromNat(n) + rest)) == if n == 0 then 20 else Min(n, 100)
    ensures LimitParam(Some(ws + "-" + FromNat(n) + rest)) == if n == 0 then 20 else -(n as int)
  {
    var d := FromNat(n);
    assert LimitParam(Some(ws + d + rest)) == LimitOr20(Number(n)) by {
      ParseIntUnsigned(ws, n, rest);
      LimitOfText(ws + d + rest);
    }
    assert LimitParam(Some(ws + "+" + d + rest)) == LimitOr20(Number(n)) by {
      ParseIntSigned(ws, '+', n, rest);
      LimitOfText(ws + "+" + d + rest);
    }
    assert LimitParam(Some(ws + "-" + d + rest)) == LimitOr20(Number(-(n as int))) by {
      ParseIntSigned(ws, '-', n, rest);
      LimitOfText(ws + "-" + d + rest);
    }
  }

  /** A limit parameter that is present and non-empty is parsed as written. */
  lemma LimitOfText(t: string)
    requires t != ""
    ensures LimitParam(Some(t)) == LimitOr20(ParseInt(t))
  {
  }

  /** An offset parameter that is present and non-empty is parsed as written. */
  lemma OffsetOfText(t: string)
    requires t != ""
    ensures OffsetParam(Some(t)) == OffsetOr0(ParseInt(t))
  {
  }

  /** A limit with no digits to parse after the white space and an optional sign (NaN)
      falls back to 20. */
  lemma {:induction false} LimitNotANumber(ws: string, sign: string, rest: string)
    requires AllWhiteSpace(ws)
    requires sign == "" || sign == "+" || sign == "-"
    requires rest == [] || (!IsDigit(rest[0]) && (sign == "" ==> !IsStrWhiteSpace(rest[0]) && rest[0] != '-' && rest[0] != '+'))
    ensures LimitParam(Some(ws + sign + rest)) == 20
  {
    ParseIntNoDigits(ws, sign, rest);
  }

  /** A decimal offset is taken as written, with or without a sign. */
  lemma {:induction false} OffsetOfDecimal(ws: string, n: nat, rest: string)
    requires AllWhiteSpace(ws)
    requires rest == [] || !IsDigit(rest[0])
    ensures OffsetParam(Some(ws + FromNat(n) + rest)) == n
    ensures OffsetParam(Some(ws + "+" + FromNat(n) + rest)) == n
    ensures OffsetParam(Some(ws + "-" + FromNat(n) + rest)) == -(n as int)
  {
    var d := FromNat(n);
    assert OffsetParam(Some(ws + d + rest)) == n by {
      ParseIntUnsigned(ws, n, rest);
      OffsetOfText(ws + d + rest);
    }
    assert OffsetParam(Some(ws + "+" + d + rest)) == n by {
      ParseIntSigned(ws, '+', n, rest);
      OffsetOfText(ws + "+" + d + rest);
    }
    assert OffsetParam(Some(ws + "-" + d + rest)) == -(n as int) by {
      ParseIntSigned(ws, '-', n, rest);
      OffsetOfText(ws + "-" + d + rest);
    }
  }

  /** The decimal text of a limit up to 100 reads as that limit. */
  lemma {:induction false} LimitOfNat(n: nat)
    requires 1 <= n <= 100
    ensures LimitParam(Some(FromNat(n))) == n
  {
    LimitOfDecimal("", n, "");
    EmptyWrap(FromNat(n));
  }

  /** The decimal text of an offset reads as that offset. */
  lemma {:induction false} OffsetOfNat(n: nat)
    ensures OffsetParam(Some(FromNat(n))) == n
  {
    OffsetOfDecimal("", n, "");
    EmptyWrap(FromNat(n));
  }

  lemma {:induction false} EmptyWrap(s: string)
    ensures "" + s + "" == s
  {
  }

  /** An offset with no digits to parse after the white space and an optional sign (NaN)
      falls back to 0. */
  lemma {:induction false} OffsetNotANumber(ws: string, sign: string, rest: string)
    requires AllWhiteSpace(ws)
    requires sign == "" || sign == "+" || sign == "-"
    requires rest == [] || (!IsDigit(rest[0]) && (sign == "" ==> !IsStrWhiteSpace(rest[0]) && rest[0] != '-' && rest[0] != '+'))
    ensures OffsetParam(Some(ws + sign + rest)) == 0
  {
    ParseIntNoDigits(ws, sign, rest);
  }
}
