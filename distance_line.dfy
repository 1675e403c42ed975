/**
 * The textual distance row of one NUMA node and how getDistancesForNode reads it:
 * the line is cut at every single space (Go's `strings.Split(line, " ")`) and each
 * piece is read as a base-10 unsigned 64-bit integer (`strconv.ParseUint(tok, 10, 64)`).
 */
module DistanceLine {
  import opened Wrappers
  import opened Errors

  /** 2^64: every uint64 lies below it. */
  const Uint64Limit: int := 0x1_0000_0000_0000_0000

  newtype uint64 = x: int | 0 <= x < Uint64Limit

  predicate IsDigit(c: char) {
    '0' <= c <= '9'
  }

  predicate AllDigits(s: string) {
    forall i :: 0 <= i < |s| ==> IsDigit(s[i])
  }

  /** The value of a string of decimal digits, most significant digit first. */
  function DecimalValue(s: string): nat
    requires AllDigits(s)
  {
    if s == [] then 0
    else DecimalValue(s[..|s| - 1]) * 10 + (s[|s| - 1] as int - '0' as int)
  }

  /**
   * `strconv.ParseUint(tok, 10, 64)`: no sign, no underscores, no blanks; an empty
   * token, a non-digit or a value of 2^64 or more is an error.
   */
  function ParseUint(tok: string): (r: Option<uint64>)
    ensures r.Some? ==> tok != [] && AllDigits(tok) && r.value as int == DecimalValue(tok)
    ensures r.Some? ==> ' ' !in tok && '+' !in tok && '-' !in tok && '_' !in tok
    ensures tok != [] && AllDigits(tok) && DecimalValue(tok) >= Uint64Limit ==> r.None?
    ensures tok != [] && AllDigits(tok) && DecimalValue(tok) < Uint64Limit ==> r.Some?
  {
    if tok != [] && AllDigits(tok) && DecimalValue(tok) < Uint64Limit
    then Some(DecimalValue(tok) as uint64)
    else None
  }

  function Digit(d: nat): (c: char)
    requires d < 10
    ensures IsDigit(c) && c as int - '0' as int == d
  {
    ('0' as int + d) as char
  }

  /** `strconv.FormatUint(v, 10)`: the decimal rendering of `v`. */
  function FormatUint(v: nat): (s: string)
    ensures s != [] && AllDigits(s)
    ensures DecimalValue(s) == v
  {
    if v < 10 then [Digit(v)]
    else
      var s := FormatUint(v / 10) + [Digit(v % 10)];
      assert s[..|s| - 1] == FormatUint(v / 10);
      s
  }

  /** `strings.Join(toks, " ")`. */
  function Join(toks: seq<string>): string {
    if toks == [] then []
    else if |toks| == 1 then toks[0]
    else toks[0] + " " + Join(toks[1..])
  }

  /**
   * `strings.Split(s, " ")`: the pieces between single spaces. There is always at
   * least one piece (the empty line gives one empty piece), no piece holds a space,
   * and joining the pieces with single spaces gives the line back.
   */
  function Split(s: string): (r: seq<string>)
    ensures |r| >= 1
    ensures forall k :: 0 <= k < |r| ==> ' ' !in r[k]
    ensures Join(r) == s
  {
    if s == [] then [[]]
    else
      var rest := Split(s[1..]);
      if s[0] == ' ' then
        assert Join([[]] + rest) == [] + " " + Join(rest) by {
          assert ([[]] + rest)[1..] == rest;
        }
        [[]] + rest
      else
        var r := [[s[0]] + rest[0]] + rest[1..];
        assert Join(r) == s by {
          if |rest| > 1 {
            assert r[1..] == rest[1..];
          }
        }
        r
  }

  /**
   * The token loop of getDistancesForNode: each token is parsed in turn and the first
   * one that fails ends the loop with `CannotConvert` naming it.
   */
  function ParseTokens(toks: seq<string>): (r: Result<seq<uint64>, Error>)
    ensures r.Ok? <==> forall k :: 0 <= k < |toks| ==> ParseUint(toks[k]).Some?
    ensures r.Ok? ==> |r.value| == |toks|
    ensures r.Ok? ==> forall k :: 0 <= k < |toks| ==> ParseUint(toks[k]) == Some(r.value[k])
    ensures r.Err? ==> exists k :: 0 <= k < |toks| && FirstInvalid(toks, k) && r.error == CannotConvert(toks[k])
  {
    if toks == [] then Ok([])
    else
      match ParseUint(toks[0])
      case None =>
        assert FirstInvalid(toks, 0);
        Err(CannotConvert(toks[0]))
      case Some(v) =>
        match ParseTokens(toks[1..])
        case Err(e) =>
          var k :| 0 <= k < |toks| - 1 && FirstInvalid(toks[1..], k) && e == CannotConvert(toks[1..][k]);
          assert FirstInvalid(toks, k + 1);
          Err(e)
        case Ok(vs) =>
          Ok([v] + vs)
  }

  /** `toks[k]` is the first token that does not parse. */
  predicate FirstInvalid(toks: seq<string>, k: int)
    requires 0 <= k < |toks|
  {
    ParseUint(toks[k]).None? && forall j :: 0 <= j < k ==> ParseUint(toks[j]).Some?
  }

  /** Once `tokens[i]` is known to be the first bad token, ParseTokens names it. */
  lemma FirstInvalidUnique(tokens: seq<string>, i: int)
    requires 0 <= i < |tokens| && FirstInvalid(tokens, i)
    ensures ParseTokens(tokens) == Err(CannotConvert(tokens[i]))
  {
  }

  /** A prefix that parses, extended by a token that parses, parses to the values extended by its value. */
  lemma ParsePrefixStep(tokens: seq<string>, i: int, row: seq<uint64>)
    requires 0 <= i < |tokens| && ParseTokens(tokens[..i]) == Ok(row) && ParseUint(tokens[i]).Some?
    ensures ParseTokens(tokens[..i + 1]) == Ok(row + [ParseUint(tokens[i]).value])
  {
    var next := row + [ParseUint(tokens[i]).value];
    forall k | 0 <= k < i + 1
      ensures ParseUint(tokens[..i + 1][k]) == Some(next[k])
    {
      if k < i {
        assert tokens[..i][k] == tokens[..i + 1][k];
      }
    }
    AllValid(tokens[..i + 1], next);
  }

  /** A prefix that parses, followed by a token that does not, makes that token the one reported. */
  lemma ParsePrefixFails(tokens: seq<string>, i: int)
    requires 0 <= i < |tokens| && ParseTokens(tokens[..i]).Ok? && ParseUint(tokens[i]).None?
    ensures ParseTokens(tokens) == Err(CannotConvert(tokens[i]))
  {
    forall j | 0 <= j < i
      ensures ParseUint(tokens[j]).Some?
    {
      assert tokens[..i][j] == tokens[j];
    }
    FirstInvalidUnique(tokens, i);
  }

  /** When every token parses, ParseTokens yields exactly the parsed values. */
  lemma AllValid(tokens: seq<string>, row: seq<uint64>)
    requires |row| == |tokens|
    requires forall k :: 0 <= k < |tokens| ==> ParseUint(tokens[k]) == Some(row[k])
    ensures ParseTokens(tokens) == Ok(row)
  {
    var r := ParseTokens(tokens);
    assert r.Ok?;
    assert r.value == row;
  }

  /** What getDistancesForNode makes of a fetched distance line. */
  function ParseRow(line: string): Result<seq<uint64>, Error> {
    ParseTokens(Split(line))
  }

  /** The decimal renderings of a row of distances. */
  function Render(row: seq<uint64>): (toks: seq<string>)
    ensures |toks| == |row|
  {
    seq(|row|, k requires 0 <= k < |row| => FormatUint(row[k] as nat))
  }

  lemma {:induction false} ParseFormatUint(v: uint64)
    ensures ParseUint(FormatUint(v as nat)) == Some(v)
  {
  }

  /** A digit string without a leading zero stands for at least 10^(|s| - 1), so at least 10 if longer than one digit. */
  lemma {:induction false} LeadingDigitValue(s: string)
    requires |s| >= 2 && AllDigits(s) && s[0] != '0'
    ensures DecimalValue(s) >= 10
  {
    var front := s[..|s| - 1];
    if |front| >= 2 {
      LeadingDigitValue(front);
    } else {
      assert DecimalValue(front) == front[0] as int - '0' as int;
    }
  }

  /** A digit string without a leading zero is the decimal rendering of its value. */
  lemma {:induction false} FormatDecimalValue(s: string)
    requires s != [] && AllDigits(s) && (|s| == 1 || s[0] != '0')
    ensures FormatUint(DecimalValue(s)) == s
  {
    var n := |s|;
    if n == 1 {
      assert DecimalValue(s) == s[0] as int - '0' as int;
    } else {
      var front := s[..n - 1];
      var v := DecimalValue(s);
      LeadingDigitValue(s);
      assert v / 10 == DecimalValue(front) && v % 10 == s[n - 1] as int - '0' as int;
      FormatDecimalValue(front);
      assert front + [s[n - 1]] == s;
    }
  }

  /** A leading zero does not change the value of a digit string. */
  lemma {:induction false} LeadingZeroValue(tok: string)
    requires AllDigits(tok)
    ensures AllDigits("0" + tok) && DecimalValue("0" + tok) == DecimalValue(tok)
  {
    var z := "0" + tok;
    assert AllDigits(z) by {
      forall i | 0 <= i < |z|
        ensures IsDigit(z[i])
      {
        if i > 0 {
          assert z[i] == tok[i - 1];
        }
      }
    }
    if tok == [] {
      assert z[..0] == [];
    } else {
      var n := |tok|;
      var front := tok[..n - 1];
      assert z[..n] == "0" + front;
      assert AllDigits(front) by {
        forall i | 0 <= i < n - 1
          ensures IsDigit(front[i])
        {
          assert front[i] == tok[i];
        }
      }
      LeadingZeroValue(front);
      assert z[n] == tok[n - 1];
    }
  }

  /**
   * `strconv.ParseUint` in base 10 accepts leading zeros: "010" parses to 10, so
   * together with ParseCanonical every digit string below 2^64 parses to its value.
   */
  lemma ParseLeadingZero(tok: string)
    requires tok != [] && AllDigits(tok)
    ensures ParseUint("0" + tok) == ParseUint(tok)
  {
    LeadingZeroValue(tok);
  }

  /**
   * The converse of ParseFormatUint: a token of digits without a leading zero and
   * below 2^64 parses, and its value renders back to the token.
   */
  lemma ParseCanonical(tok: string)
    requires tok != [] && AllDigits(tok) && (|tok| == 1 || tok[0] != '0')
    requires DecimalValue(tok) < Uint64Limit
    ensures ParseUint(tok).Some? && FormatUint(ParseUint(tok).value as nat) == tok
  {
    FormatDecimalValue(tok);
  }

  /** A piece without spaces splits into itself. */
  lemma {:induction false} SplitSpaceless(t: string)
    requires ' ' !in t
    ensures Split(t) == [t]
  {
    if t != [] {
      SplitSpaceless(t[1..]);
      assert [t[0]] + t[1..] == t;
    }
  }

  /** Splitting `t + " " + rest` peels `t` off the front when `t` has no space. */
  lemma {:induction false} SplitPiece(t: string, rest: string)
    requires ' ' !in t
    ensures Split(t + " " + rest) == [t] + Split(rest)
  {
    var s := t + " " + rest;
    if t == [] {
      assert s == " " + rest;
      assert s[1..] == rest;
    } else {
      assert s[1..] == t[1..] + " " + rest;
      SplitPiece(t[1..], rest);
      assert [t[0]] + t[1..] == t;
    }
  }

  /** Split undoes Join on a non-empty list of pieces without spaces. */
  lemma {:induction false} SplitJoin(toks: seq<string>)
    requires |toks| >= 1
    requires forall k :: 0 <= k < |toks| ==> ' ' !in toks[k]
    ensures Split(Join(toks)) == toks
  {
    if |toks| == 1 {
      SplitSpaceless(toks[0]);
    } else {
      SplitJoin(toks[1..]);
      SplitPiece(toks[0], Join(toks[1..]));
      assert [toks[0]] + toks[1..] == toks;
    }
  }

  lemma {:induction false} ParseRendered(row: seq<uint64>)
    ensures ParseTokens(Render(row)) == Ok(row)
  {
    var toks := Render(row);
    forall k | 0 <= k < |toks|
      ensures ParseUint(toks[k]) == Some(row[k])
    {
      ParseFormatUint(row[k]);
    }
    AllValid(toks, row);
  }

  /**
   * Round trip: the line written by joining the decimal renderings of a non-empty row
   * with single spaces parses back to that row.
   */
  lemma {:induction false} ParseRowRoundTrip(row: seq<uint64>)
    requires |row| > 0
    ensures ParseRow(Join(Render(row))) == Ok(row)
  {
    var toks := Render(row);
    forall k | 0 <= k < |toks|
      ensures ' ' !in toks[k]
    {
      assert AllDigits(toks[k]);
    }
    SplitJoin(toks);
    ParseRendered(row);
  }

  /** An empty line, or one that starts with a space, fails on an empty first token. */
  lemma {:induction false} LeadingEmptyTokenFails(line: string)
    requires line == [] || line[0] == ' '
    ensures ParseRow(line) == Err(CannotConvert([]))
  {
    FirstInvalidUnique(Split(line), 0);
  }

  /** A space that ends the line or is followed by another space leaves an empty piece behind it. */
  lemma {:induction false} EmptyPieceAfter(s: string, i: int)
    requires 0 <= i < |s| && s[i] == ' '
    requires i + 1 == |s| || s[i + 1] == ' '
    ensures exists k :: 1 <= k < |Split(s)| && Split(s)[k] == []
  {
    var rest := Split(s[1..]);
    if i == 0 {
      assert Split(s) == [[]] + rest;
      if s[1..] != [] {
        assert s[1..][0] == ' ';
      }
      assert rest[0] == [];
      assert Split(s)[1] == [];
    } else {
      EmptyPieceAfter(s[1..], i - 1);
      var k :| 1 <= k < |rest| && rest[k] == [];
      if s[0] == ' ' {
        assert Split(s)[k + 1] == [];
      } else {
        assert Split(s)[k] == [];
      }
    }
  }

  /** Two adjacent spaces, or a trailing space, make the whole line fail. */
  lemma {:induction false} DoubleOrTrailingSpaceFails(line: string, i: int)
    requires 0 <= i < |line| && line[i] == ' '
    requires i + 1 == |line| || line[i + 1] == ' '
    ensures ParseRow(line).Err?
  {
    EmptyPieceAfter(line, i);
    var k :| 1 <= k < |Split(line)| && Split(line)[k] == [];
    assert ParseUint(Split(line)[k]).None?;
  }

  /** Joining pieces made of digits only gives a line of digits and spaces. */
  lemma {:induction false} JoinAlphabet(toks: seq<string>)
    requires forall k :: 0 <= k < |toks| ==> AllDigits(toks[k])
    ensures forall i :: 0 <= i < |Join(toks)| ==> Join(toks)[i] == ' ' || IsDigit(Join(toks)[i])
  {
    if |toks| > 1 {
      JoinAlphabet(toks[1..]);
      var j := Join(toks);
      assert j == toks[0] + " " + Join(toks[1..]);
      forall i | 0 <= i < |j|
        ensures j[i] == ' ' || IsDigit(j[i])
      {
        if i > |toks[0]| {
          assert j[i] == Join(toks[1..])[i - |toks[0]| - 1];
        }
      }
    }
  }

  /** A line that parses consists of decimal digits and spaces only. */
  lemma {:induction false} ParsedLineAlphabet(line: string)
    requires ParseRow(line).Ok?
    ensures forall i :: 0 <= i < |line| ==> line[i] == ' ' || IsDigit(line[i])
  {
    var toks := Split(line);
    forall k | 0 <= k < |toks|
      ensures AllDigits(toks[k])
    {
      assert ParseUint(toks[k]).Some?;
    }
    JoinAlphabet(toks);
  }
}
