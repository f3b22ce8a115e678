// Offset paging of the internal storage (pkg/storage/internalstorage/util.go and resource_storage.go)
// over a fixed order of the matching rows: the page, the continue token and the remaining count of a
// List, and what a client gets that follows the tokens.
module Paging {
  import opened Common

  const MAX_INT64: int := 0x7FFF_FFFF_FFFF_FFFF

  // The sum or difference of two 64-bit numbers as the program computes it.
  function Wrap64(n: int): int {
    if n > MAX_INT64 then n - 0x1_0000_0000_0000_0000
    else if n < -MAX_INT64 - 1 then n + 0x1_0000_0000_0000_0000
    else n
  }

  // strconv.FormatInt
  function Format(n: int): string {
    if n < 0 then "-" + Digits(-n) else Digits(n)
  }

  // strconv.Atoi: the value and whether there was no error. A number out of range is an error that
  // still comes with the nearest value.
  function Atoi(s: string): (int, bool) {
    var signed := s != "" && (s[0] == '+' || s[0] == '-');
    var digits := if signed then s[1..] else s;
    if digits == "" || !AllDigits(digits) then (0, false)
    else
      var n: int := if signed && s[0] == '-' then 0 - Decimal(digits) else Decimal(digits);
      if n > MAX_INT64 then (MAX_INT64, false)
      else if n < -MAX_INT64 - 1 then (-MAX_INT64 - 1, false)
      else (n, true)
  }

  // A token is read back as the offset it was made from.
  lemma TokenRoundTrip(n: int)
    requires 0 <= n <= MAX_INT64
    ensures Atoi(Format(n)) == (n, true)
  {
    DigitsRoundTrip(n);
    assert IsDigit(Digits(n)[0]);
  }

  // How offsets become tokens and are read back. The program's is DECIMAL; what follows holds for every
  // way that reads offsets back, and takes an empty token for none.
  datatype Codec = Codec(write: int -> string, read: string -> (int, bool))

  const DECIMAL := Codec(Format, Atoi)

  ghost predicate Sound(c: Codec) {
    && (forall n :: 0 <= n <= MAX_INT64 ==> c.read(c.write(n)) == (n, true))
    && c.read("") == (0, false)
  }

  lemma DecimalSound()
    ensures Sound(DECIMAL)
  {
    forall n | 0 <= n <= MAX_INT64 ensures DECIMAL.read(DECIMAL.write(n)) == (n, true) {
      TokenRoundTrip(n);
    }
  }

  datatype Options = Options(limit: int, token: string, withContinue: bool, withRemainingCount: bool)

  datatype Page<T> = Page(items: seq<T>, token: Option<string>, remaining: Option<int>)

  // Rows that LIMIT and OFFSET leave; a limit or an offset that is not positive is not written.
  function Window<T>(rows: seq<T>, offset: int, limit: int): (w: seq<T>)
    ensures limit > 0 ==> |w| <= limit
  {
    var start := if offset <= 0 then 0 else if offset <= |rows| then offset else |rows|;
    rows[start..if limit > 0 && start + limit < |rows| then start + limit else |rows|]
  }

  // applyListOptionsToQuery and List, for the rows that match.
  function ListPage<T>(rows: seq<T>, opts: Options, c: Codec): Page<T> {
    var (offset, ok) := c.read(opts.token);
    var items := Window(rows, if ok then offset else 0, opts.limit);
    Page(items,
         if opts.withContinue && |items| == opts.limit then Some(c.write(Wrap64(offset + opts.limit))) else None,
         if opts.withRemainingCount then Some(Wrap64(Wrap64(|rows| - offset) - |items|)) else None)
  }

  // The token is read as the offset; one that cannot be read stands for the beginning.
  predicate Names(token: string, offset: nat, c: Codec) {
    c.read(token) == (offset, true) || (offset == 0 && c.read(token) == (0, false))
  }

  function End(offset: int, limit: int, total: nat): int { if offset + limit < total then offset + limit else total }

  // The page at an offset that a token names. The three counts add up to the total, and what remains
  // is what follows the page.
  lemma PageAt<T>(rows: seq<T>, opts: Options, offset: nat, c: Codec)
    requires Sound(c) && Names(opts.token, offset, c)
    requires |rows| <= MAX_INT64 && 0 < opts.limit <= MAX_INT64 && offset <= |rows|
    ensures var page, end := ListPage(rows, opts, c), End(offset, opts.limit, |rows|);
            && page.items == rows[offset..end]
            && page.remaining == (if opts.withRemainingCount then Some(|rows| - end) else None)
            && (page.token.Some? <==> opts.withContinue && offset + opts.limit <= |rows|)
            && (page.token.Some? ==> Names(page.token.value, offset + opts.limit, c))
            && offset + |page.items| + (|rows| - end) == |rows|
  {
    assert Window(rows, offset, opts.limit) == rows[offset..End(offset, opts.limit, |rows|)];
  }

  // A list without a positive limit is not cut: it has all rows from the offset that the token names, and
  // all rows at all if the token names none or a negative one.
  lemma PageWithoutLimit<T>(rows: seq<T>, opts: Options, c: Codec)
    requires opts.limit <= 0
    ensures var (offset, ok) := c.read(opts.token);
            var items := ListPage(rows, opts, c).items;
            if !ok || offset <= 0 then items == rows
            else if offset <= |rows| then rows[..offset] + items == rows
            else items == []
  {
  }

  // The counts add up for every token, also for one that is no number, that is negative or that lies
  // beyond the rows, where the remaining count is negative, as long as the difference fits 64 bits.
  lemma CountsAddUp<T>(rows: seq<T>, opts: Options, c: Codec)
    requires |rows| <= MAX_INT64 && opts.withRemainingCount && |rows| - MAX_INT64 <= c.read(opts.token).0 <= MAX_INT64
    ensures var page, offset := ListPage(rows, opts, c), c.read(opts.token).0;
            offset + |page.items| + page.remaining.value == |rows|
  {
    var (offset, ok) := c.read(opts.token);
    assert |Window(rows, if ok then offset else 0, opts.limit)| <= |rows|;
  }

  // The page that a client asks for that has seen the rows before an offset.
  method NextPage<T>(rows: seq<T>, limit: int, token: string, c: Codec, ghost offset: nat)
    returns (items: seq<T>, next: Option<string>)
    requires Sound(c) && Names(token, offset, c)
    requires |rows| <= MAX_INT64 && 0 < limit <= MAX_INT64 && offset <= |rows|
    ensures rows[..offset] + items == if offset + limit <= |rows| then rows[..offset + limit] else rows
    ensures next.Some? <==> offset + limit <= |rows|
    ensures next.Some? ==> Names(next.value, offset + limit, c)
  {
    var opts := Options(limit, token, true, false);
    PageAt(rows, opts, offset, c);
    var page := ListPage(rows, opts, c);
    items, next := page.items, page.token;
  }

  // A client that follows the tokens from the beginning sees every row once, in order, and stops after
  // the number of pages that the rows fill, with one more page when the last one was full.
  method FollowTokens<T>(rows: seq<T>, limit: int, c: Codec) returns (seen: seq<T>, pages: nat)
    requires Sound(c) && |rows| <= MAX_INT64 && 0 < limit <= MAX_INT64
    ensures seen == rows
    ensures (pages - 1) * limit <= |rows| < pages * limit
  {
    var token := "";
    seen, pages := [], 0;
    ghost var offset := 0;
    while true
      invariant 0 <= offset <= |rows| && seen == rows[..offset] && offset == pages * limit
      invariant Names(token, offset, c)
      decreases |rows| - offset
    {
      assert (pages + 1) * limit == pages * limit + limit;
      var items, next := NextPage(rows, limit, token, c, offset);
      seen := seen + items;
      pages := pages + 1;
      if next.None? {
        return;
      }
      token := next.value;
      offset := offset + limit;
    }
  }

  // So does a client of the program, whose tokens are decimal numbers.
  method FollowDecimalTokens<T>(rows: seq<T>, limit: int) returns (seen: seq<T>, pages: nat)
    requires |rows| <= MAX_INT64 && 0 < limit <= MAX_INT64
    ensures seen == rows
    ensures (pages - 1) * limit <= |rows| < pages * limit
  {
    DecimalSound();
    seen, pages := FollowTokens(rows, limit, DECIMAL);
  }

  // The token after n more pages; None once there was none.
  function Followed<T>(rows: seq<T>, limit: int, token: string, c: Codec, n: nat): Option<string>
    decreases n
  {
    if n == 0 then Some(token)
    else
      match ListPage(rows, Options(limit, token, true, false), c).token
      case None => None
      case Some(next) => Followed(rows, limit, next, c, n - 1)
  }

  ghost predicate Stops<T>(rows: seq<T>, limit: int, c: Codec) { exists n :: Followed(rows, limit, "", c, n).None? }

  lemma {:induction false} FollowedFrom<T>(rows: seq<T>, limit: int, token: string, c: Codec, offset: nat)
    returns (n: nat)
    requires Sound(c) && |rows| <= MAX_INT64 && 0 < limit <= MAX_INT64 && offset <= |rows|
    requires Names(token, offset, c)
    ensures Followed(rows, limit, token, c, n).None?
    decreases |rows| - offset
  {
    var opts := Options(limit, token, true, false);
    PageAt(rows, opts, offset, c);
    match ListPage(rows, opts, c).token {
      case None => n := 1;
      case Some(next) =>
        var rest := FollowedFrom(rows, limit, next, c, offset + limit);
        n := rest + 1;
    }
  }

  lemma {:induction false} ZeroLimitRepeats<T>(rows: seq<T>, token: string, c: Codec, n: nat)
    requires Sound(c) && rows == [] && (token == "" || token == c.write(0))
    ensures Followed(rows, 0, token, c, n) == Some(if n == 0 then token else c.write(0))
    decreases n
  {
    if n > 0 {
      ZeroLimitRepeats(rows, c.write(0), c, n - 1);
    }
  }

  // Following tokens comes to an end exactly when the limit is not zero or there is a row to list: a
  // list without limit that matches nothing is handed the same token again and again.
  lemma StopsExactlyWhen<T>(rows: seq<T>, limit: int, c: Codec)
    requires Sound(c) && |rows| <= MAX_INT64 && limit <= MAX_INT64
    ensures Stops(rows, limit, c) <==> limit != 0 || rows != []
  {
    if limit > 0 {
      var n := FollowedFrom(rows, limit, "", c, 0);
    } else if limit < 0 || rows != [] {
      assert Followed(rows, limit, "", c, 1).None?;
    } else {
      forall n ensures Followed(rows, limit, "", c, n).Some? {
        ZeroLimitRepeats(rows, "", c, n);
      }
    }
  }

  lemma DecimalStopsExactlyWhen<T>(rows: seq<T>, limit: int)
    requires |rows| <= MAX_INT64 && limit <= MAX_INT64
    ensures Stops(rows, limit, DECIMAL) <==> limit != 0 || rows != []
  {
    DecimalSound();
    StopsExactlyWhen(rows, limit, DECIMAL);
  }
}
