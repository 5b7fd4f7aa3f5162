/** The index-selection resolver: a line of comma-separated numbers picks
    entries of a displayed inventory by position. The line is split at every
    ',', each token is trimmed and parsed as a signed 64-bit integer, and
    each number is cast to an unsigned machine index and used to index the
    inventory, in order. Any bad token, and then any index past the end,
    aborts the run. */
module Selection {
  import opened Types

  const MinI64: int := -0x8000_0000_0000_0000
  const MaxI64: int := 0x7FFF_FFFF_FFFF_FFFF

  /** Rust's `i64`. */
  newtype i64 = x: int | -0x8000_0000_0000_0000 <= x <= 0x7FFF_FFFF_FFFF_FFFF

  /** 2^64: the number of values of a 64-bit `usize`. */
  const UsizeModulus: int := 0x1_0000_0000_0000_0000

  /** `x as usize` on a 64-bit target: the same bits read as unsigned, so a
      negative number becomes a very large index. */
  function AsUsize(x: i64): (u: nat)
    ensures u < UsizeModulus
    ensures u % UsizeModulus == (x as int) % UsizeModulus
    ensures x < 0 ==> u > MaxI64
  {
    if x < 0 then x as int + UsizeModulus else x as int
  }

  /** Selection errors: a token that is not a number, or a number that is
      not a position of the inventory (`index` is the number after the cast,
      `length` the inventory's length). `position` is the token's place in
      the line. */
  datatype SelectionError =
    | BadNumber(position: nat, token: string)
    | OutOfRange(position: nat, index: nat, length: nat)

  // ---------------------------------------------------------------------
  // Splitting at ','

  /** `line.split(',')`: the pieces between commas, in order; a line with
      k commas has k + 1 pieces, empty ones included. */
  function Split(line: string): (parts: seq<string>)
    ensures |parts| >= 1
    ensures forall i :: 0 <= i < |parts| ==> ',' !in parts[i]
  {
    if line == [] then [""]
    else
      var rest := Split(line[1..]);
      if line[0] == ',' then [""] + rest
      else [[line[0]] + rest[0]] + rest[1..]
  }

  /** The pieces put back together with ',' between neighbours. */
  function Join(parts: seq<string>): string
    requires |parts| >= 1
  {
    if |parts| == 1 then parts[0] else parts[0] + "," + Join(parts[1..])
  }

  /** Splitting loses nothing: joining the pieces gives the line back. */
  lemma {:induction false} JoinSplit(line: string)
    ensures Join(Split(line)) == line
  {
    if line != [] {
      JoinSplit(line[1..]);
      var rest := Split(line[1..]);
      if line[0] == ',' {
        assert Split(line)[1..] == rest;
      } else {
        if |rest| == 1 {
          assert Join(Split(line)) == [line[0]] + rest[0];
        } else {
          assert Split(line)[1..] == rest[1..];
          assert Join(Split(line)) == [line[0]] + rest[0] + "," + Join(rest[1..]);
        }
      }
    }
  }

  /** A comma-free prefix is glued onto the first piece. */
  lemma {:induction false} SplitCommaFreePrefix(w: string, s: string)
    requires ',' !in w
    ensures Split(w + s) == [w + Split(s)[0]] + Split(s)[1..]
  {
    if w != [] {
      assert (w + s)[0] == w[0];
      assert (w + s)[1..] == w[1..] + s;
      SplitCommaFreePrefix(w[1..], s);
      assert [w[0]] + (w[1..] + Split(s)[0]) == w + Split(s)[0];
    } else {
      assert w + s == s;
      assert w + Split(s)[0] == Split(s)[0];
      assert [Split(s)[0]] + Split(s)[1..] == Split(s);
    }
  }

  /** Splitting is the inverse of joining comma-free pieces, so the pieces
      of a line are determined by the line. */
  lemma {:induction false} SplitJoin(parts: seq<string>)
    requires |parts| >= 1
    requires forall i :: 0 <= i < |parts| ==> ',' !in parts[i]
    ensures Split(Join(parts)) == parts
  {
    if |parts| == 1 {
      SplitCommaFreePrefix(parts[0], "");
      assert parts[0] + "" == parts[0];
    } else {
      SplitJoin(parts[1..]);
      var tail := Join(parts[1..]);
      assert parts[0] + "," + tail == parts[0] + ("," + tail);
      SplitCommaFreePrefix(parts[0], "," + tail);
      assert ("," + tail)[1..] == tail;
      assert Split("," + tail) == [""] + parts[1..];
      assert parts[0] + "" == parts[0];
      assert [parts[0]] + parts[1..] == parts;
    }
  }

  /** A comma followed by a comma-free tail adds one last piece, the tail. */
  lemma {:induction false} SplitLastComma(s: string, tail: string)
    requires ',' !in tail
    ensures Split(s + "," + tail) == Split(s) + [tail]
  {
    if s == [] {
      assert s + "," + tail == "," + tail;
      assert ("," + tail)[1..] == tail;
      SplitCommaFreePrefix(tail, "");
      assert tail + "" == tail;
    } else {
      assert (s + "," + tail)[0] == s[0];
      assert (s + "," + tail)[1..] == s[1..] + "," + tail;
      SplitLastComma(s[1..], tail);
    }
  }

  // ---------------------------------------------------------------------
  // Trimming

  /** Rust's `char::is_whitespace`: the Unicode White_Space characters. */
  predicate IsWhitespace(c: char) {
    var n := c as int;
    (0x09 <= n <= 0x0D) || n == 0x20 || n == 0x85 || n == 0xA0 || n == 0x1680
    || (0x2000 <= n <= 0x200A) || n == 0x2028 || n == 0x2029 || n == 0x202F
    || n == 0x205F || n == 0x3000
  }

  /** Drops leading white space: the result is a suffix of `s`, all of what
      was dropped is white space, and the result does not start with any. */
  function TrimStart(s: string): (r: string)
    ensures |r| <= |s| && r == s[|s| - |r|..]
    ensures forall i :: 0 <= i < |s| - |r| ==> IsWhitespace(s[i])
    ensures r != [] ==> !IsWhitespace(r[0])
  {
    if s != [] && IsWhitespace(s[0]) then TrimStart(s[1..]) else s
  }

  /** Drops trailing white space: the result is a prefix of `s`, all of
      what was dropped is white space, and the result does not end with any. */
  function TrimEnd(s: string): (r: string)
    ensures |r| <= |s| && r == s[..|r|]
    ensures forall i :: |r| <= i < |s| ==> IsWhitespace(s[i])
    ensures r != [] ==> !IsWhitespace(r[|r| - 1])
  {
    if s != [] && IsWhitespace(s[|s| - 1]) then TrimEnd(s[..|s| - 1]) else s
  }

  /** `str::trim`: the result neither starts nor ends with white space. */
  function Trim(s: string): (r: string)
    ensures |r| <= |s|
    ensures r != [] ==> !IsWhitespace(r[0]) && !IsWhitespace(r[|r| - 1])
  {
    TrimEnd(TrimStart(s))
  }

  /** `Trim` keeps an infix of the token: for `t`, the token after its
      leading white space, and `r`, the trimmed token, `r` sits in `s` where
      `t` starts, and everything after it is white space (`TrimStart` states
      that everything before it is). */
  lemma {:induction false} TrimIsInfix(s: string, t: string, r: string)
    requires t == TrimStart(s) && r == Trim(s)
    ensures 0 <= |s| - |t| <= |s| - |r|
    ensures r == s[|s| - |t|..|s| - |t| + |r|]
    ensures forall i :: 0 <= i < |s| - |t| ==> IsWhitespace(s[i])
    ensures forall i :: |s| - |t| + |r| <= i < |s| ==> IsWhitespace(s[i])
  {
    PrefixOfSuffix(s, t, r);
  }

  /** A prefix `r` of a suffix `t` of `s` is an infix of `s`, and white space
      after `r` in `t` is white space after it in `s`. */
  lemma {:induction false} PrefixOfSuffix(s: string, t: string, r: string)
    requires |t| <= |s| && t == s[|s| - |t|..]
    requires forall i :: 0 <= i < |s| - |t| ==> IsWhitespace(s[i])
    requires |r| <= |t| && r == t[..|r|]
    requires forall i :: |r| <= i < |t| ==> IsWhitespace(t[i])
    ensures 0 <= |s| - |t| <= |s| - |r|
    ensures r == s[|s| - |t|..|s| - |t| + |r|]
    ensures forall i :: 0 <= i < |s| - |t| ==> IsWhitespace(s[i])
    ensures forall i :: |s| - |t| + |r| <= i < |s| ==> IsWhitespace(s[i])
  {
    var a := |s| - |t|;
    forall i | a + |r| <= i < |s|
      ensures IsWhitespace(s[i])
    {
      assert s[i] == t[i - a];
    }
  }

  /** Trimming a token that is nothing but white space leaves nothing. */
  lemma TrimBlank(s: string)
    requires forall i :: 0 <= i < |s| ==> IsWhitespace(s[i])
    ensures Trim(s) == ""
  {
  }

  // ---------------------------------------------------------------------
  // Parsing a signed 64-bit integer

  predicate IsDigit(c: char) {
    '0' <= c <= '9'
  }

  predicate AllDigits(s: string) {
    forall i :: 0 <= i < |s| ==> IsDigit(s[i])
  }

  /** The value of a string of decimal digits. */
  function Decimal(ds: string): nat
    requires AllDigits(ds)
  {
    if ds == [] then 0
    else 10 * Decimal(ds[..|ds| - 1]) + (ds[|ds| - 1] as int - '0' as int)
  }

  /** `str::parse::<i64>`: an optional '+' or '-' and then one or more ASCII
      digits, whose value must fit in 64 bits; nothing else (no white space,
      no lone sign, no empty string) parses. */
  function ParseI64(s: string): (r: Option<i64>)
    ensures s == [] ==> r.None?
    ensures r.Some? ==> forall i :: 0 <= i < |s| ==> IsDigit(s[i]) || (i == 0 && |s| > 1 && (s[0] == '+' || s[0] == '-'))
  {
    if s == [] then None
    else if (s[0] == '+' || s[0] == '-') && |s| == 1 then None
    else
      var digits := if s[0] == '+' || s[0] == '-' then s[1..] else s;
      if !AllDigits(digits) then None
      else
        var v: int := if s[0] == '-' then -(Decimal(digits) as int) else Decimal(digits);
        if MinI64 <= v <= MaxI64 then Some(v as i64) else None
  }

  /** The other direction: an optional sign and then one or more ASCII
      digits parses exactly when its value fits in 64 bits, and then to that
      value. Leading zeros and a leading '+' are accepted. */
  lemma ParseSignedDigits(sign: string, ds: string)
    requires sign == "" || sign == "+" || sign == "-"
    requires ds != [] && AllDigits(ds)
    ensures var v := if sign == "-" then -(Decimal(ds) as int) else Decimal(ds) as int;
      ParseI64(sign + ds) == if MinI64 <= v <= MaxI64 then Some(v as i64) else None
  {
    if sign == "" {
      assert sign + ds == ds;
    } else {
      assert (sign + ds)[0] == sign[0] && (sign + ds)[1..] == ds;
    }
  }

  /** The digit for a value below ten. */
  function Digit(d: nat): (c: char)
    requires d < 10
    ensures IsDigit(c) && c as int - '0' as int == d
  {
    ('0' as int + d) as char
  }

  /** Decimal digits of a natural number, most significant first. */
  function NatDigits(n: nat): string
    decreases n
  {
    if n < 10 then [Digit(n)] else NatDigits(n / 10) + [Digit(n % 10)]
  }

  /** Digits are digits, never empty, and read back as the number. */
  lemma {:induction false} NatDigitsValue(n: nat)
    ensures NatDigits(n) != [] && AllDigits(NatDigits(n))
    ensures Decimal(NatDigits(n)) == n
    decreases n
  {
    if n >= 10 {
      NatDigitsValue(n / 10);
      var ds := NatDigits(n);
      assert ds[..|ds| - 1] == NatDigits(n / 10);
    }
  }

  /** The decimal form of an `i64`, with '-' for negative numbers. */
  function Format(n: i64): string {
    if n < 0 then "-" + NatDigits(-(n as int)) else NatDigits(n as int)
  }

  /** Every `i64` written in decimal parses back to itself. */
  lemma FormatParses(n: i64)
    ensures ParseI64(Format(n)) == Some(n)
  {
    if n < 0 {
      NatDigitsValue(-(n as int));
      assert Format(n)[1..] == NatDigits(-(n as int));
    } else {
      NatDigitsValue(n as int);
    }
  }

  // ---------------------------------------------------------------------
  // The number list

  /** The number a token stands for: `token.trim().parse::<i64>()`. */
  function TokenValue(token: string): Option<i64> {
    ParseI64(Trim(token))
  }

  /** All the values, if every one is present; otherwise the position of the
      first missing one. */
  function Collect(values: seq<Option<i64>>): (r: Result<seq<i64>, nat>)
    ensures r.Ok? <==> forall i :: 0 <= i < |values| ==> values[i].Some?
    ensures r.Ok? ==> |r.value| == |values|
    ensures r.Ok? ==> forall i :: 0 <= i < |values| ==> values[i] == Some(r.value[i])
    ensures r.Err? ==> r.error < |values| && values[r.error].None?
    ensures r.Err? ==> forall i :: 0 <= i < r.error ==> values[i].Some?
  {
    if values == [] then Ok([])
    else
      var rest := Collect(values[1..]);
      if values[0].None? then Err(0)
      else if rest.Ok? then Ok([values[0].value] + rest.value)
      else Err(rest.error + 1)
  }

  /** The numbers of the tokens, each trimmed and parsed in order; the first
      token that does not parse stops the whole parse. */
  function ParseNumbers(tokens: seq<string>): (r: Result<seq<i64>, SelectionError>)
    ensures r.Ok? <==> forall i :: 0 <= i < |tokens| ==> TokenValue(tokens[i]).Some?
    ensures r.Ok? ==> |r.value| == |tokens|
    ensures r.Ok? ==> forall i :: 0 <= i < |tokens| ==> TokenValue(tokens[i]) == Some(r.value[i])
    ensures r.Err? ==> r.error.BadNumber? && r.error.position < |tokens|
    ensures r.Err? ==> r.error.token == tokens[r.error.position] && TokenValue(r.error.token).None?
    ensures r.Err? ==> forall i :: 0 <= i < r.error.position ==> TokenValue(tokens[i]).Some?
  {
    var values := seq(|tokens|, i requires 0 <= i < |tokens| => TokenValue(tokens[i]));
    assert forall i :: 0 <= i < |tokens| ==> values[i] == TokenValue(tokens[i]);
    match Collect(values)
    case Ok(numbers) => Ok(numbers)
    case Err(k) => Err(BadNumber(k, tokens[k]))
  }

  /** A line with a blank token (an empty line, a trailing comma, two commas
      in a row) has no number list. */
  lemma BlankTokenRejected(line: string, k: nat)
    requires k < |Split(line)|
    requires forall i :: 0 <= i < |Split(line)[k]| ==> IsWhitespace(Split(line)[k][i])
    ensures ParseNumbers(Split(line)).Err?
  {
    TrimBlank(Split(line)[k]);
  }

  /** White space holds no comma. */
  lemma BlankHasNoComma(w: string)
    requires forall i :: 0 <= i < |w| ==> IsWhitespace(w[i])
    ensures ',' !in w
  {
  }

  /** A blank line (the newline alone, say) is rejected. */
  lemma BlankLineRejected(newline: string)
    requires forall i :: 0 <= i < |newline| ==> IsWhitespace(newline[i])
    ensures ParseNumbers(Split(newline)).Err?
  {
    BlankHasNoComma(newline);
    SplitCommaFreePrefix(newline, "");
    assert newline + "" == newline;
    BlankTokenRejected(newline, 0);
  }

  /** A line that ends in a comma, followed only by the newline or other
      white space, is rejected whatever comes before the comma. */
  lemma TrailingCommaRejected(s: string, newline: string)
    requires forall i :: 0 <= i < |newline| ==> IsWhitespace(newline[i])
    ensures ParseNumbers(Split(s + "," + newline)).Err?
  {
    BlankHasNoComma(newline);
    SplitLastComma(s, newline);
    BlankTokenRejected(s + "," + newline, |Split(s)|);
  }

  // ---------------------------------------------------------------------
  // Resolving the numbers against the inventory

  /** The loop that pushes `inventory[x as usize]` for every number `x` in
      order: duplicates stay, the order of the numbers is kept, and the
      first index past the end aborts. */
  method Resolve<T>(numbers: seq<i64>, inventory: seq<T>) returns (r: Result<seq<T>, SelectionError>)
    ensures r.Ok? <==> forall i :: 0 <= i < |numbers| ==> AsUsize(numbers[i]) < |inventory|
    ensures r.Ok? ==> |r.value| == |numbers|
    ensures r.Ok? ==> forall i :: 0 <= i < |numbers| ==> r.value[i] == inventory[AsUsize(numbers[i])]
    ensures r.Err? ==> r.error.OutOfRange? && r.error.position < |numbers|
    ensures r.Err? ==> r.error.index == AsUsize(numbers[r.error.position]) && r.error.length == |inventory|
    ensures r.Err? ==> r.error.index >= r.error.length
    ensures r.Err? ==> forall i :: 0 <= i < r.error.position ==> AsUsize(numbers[i]) < |inventory|
  {
    var chosen: seq<T> := [];
    for k := 0 to |numbers|
      invariant |chosen| == k
      invariant forall i :: 0 <= i < k ==> AsUsize(numbers[i]) < |inventory|
      invariant forall i :: 0 <= i < k ==> chosen[i] == inventory[AsUsize(numbers[i])]
    {
      var index := AsUsize(numbers[k]);
      if index >= |inventory| {
        return Err(OutOfRange(k, index, |inventory|));
      }
      chosen := chosen + [inventory[index]];
    }
    return Ok(chosen);
  }

  /** Every token of the line is a number in [0, n). */
  predicate Picks(line: string, n: nat) {
    forall i :: 0 <= i < |Split(line)| ==>
      TokenValue(Split(line)[i]).Some? && 0 <= TokenValue(Split(line)[i]).value as int < n
  }

  /** The entries a line of valid numbers names, one per token, in token
      order. */
  function Picked<T>(line: string, inventory: seq<T>): seq<T>
    requires Picks(line, |inventory|)
  {
    seq(|Split(line)|, i requires 0 <= i < |Split(line)| && Picks(line, |inventory|) =>
      inventory[TokenValue(Split(line)[i]).value as int])
  }

  /** One selection prompt's answer resolved against the inventory shown:
      parse every token first, then index. On a 64-bit target an inventory
      cannot be longer than MaxI64, and then the selection succeeds exactly
      when every trimmed token is a number in [0, length), and yields one
      entry per token, in token order. */
  method Select<T>(line: string, inventory: seq<T>) returns (r: Result<seq<T>, SelectionError>)
    ensures r.Ok? ==> ParseNumbers(Split(line)).Ok?
    ensures ParseNumbers(Split(line)).Err? ==> r == Err(ParseNumbers(Split(line)).error)
    ensures |inventory| <= MaxI64 ==>
      (r.Ok? <==> forall i :: 0 <= i < |Split(line)| ==>
         TokenValue(Split(line)[i]).Some? && 0 <= TokenValue(Split(line)[i]).value as int < |inventory|)
    ensures r.Ok? ==> |r.value| == |Split(line)|
    ensures r.Ok? ==> forall i :: 0 <= i < |r.value| ==> r.value[i] in inventory
    ensures |inventory| <= MaxI64 && r.Ok? ==> forall i :: 0 <= i < |Split(line)| ==>
      r.value[i] == inventory[TokenValue(Split(line)[i]).value as int]
    ensures |inventory| <= MaxI64 ==> (r.Ok? <==> Picks(line, |inventory|))
    ensures |inventory| <= MaxI64 && r.Ok? ==> r.value == Picked(line, inventory)
  {
    var tokens := Split(line);
    var parsed := ParseNumbers(tokens);
    if parsed.Err? {
      return Err(parsed.error);
    }
    var numbers := parsed.value;
    r := Resolve(numbers, inventory);
  }
}
