/** The pieces of the Go runtime and standard library that the replay core relies
    on, stated as Dafny definitions: `strconv.Atoi` on short strings, Go's integer
    division, the conversion of a float64 to int, and opaque websocket handles and
    frames. */
module GoLib {

  datatype Option<+T> = None | Some(value: T) {
    function GetOr(default: T): T {
      match this
      case Some(v) => v
      case None => default
    }
  }

  type Bytes = seq<bv8>

  /** A websocket connection handle (`*websocket.Conn`): only its identity matters. */
  type Conn = nat

  /** `websocket.TextMessage` of gorilla/websocket. */
  const TextMessage: int := 1

  /** One websocket frame: its message type and its payload. */
  datatype Message = Message(messageType: int, data: Bytes)

  // ---------------------------------------------------------------------------
  // Traces of websocket writes

  /** One websocket write: its recipient and the frame written. */
  datatype Sent<T> = Sent(to: T, message: Message)

  /** The recipients of the writes `w`. */
  ghost function Recipients<T>(w: seq<Sent<T>>): set<T> {
    set i | 0 <= i < |w| :: w[i].to
  }

  lemma RecipientsSnoc<T>(w: seq<Sent<T>>, x: Sent<T>)
    ensures Recipients(w + [x]) == Recipients(w) + {x.to}
  {
    var w' := w + [x];
    assert w'[|w|] == x;
    forall c | c in Recipients(w) ensures c in Recipients(w') {
      var i :| 0 <= i < |w| && w[i].to == c;
      assert w'[i] == w[i];
    }
  }

  /** `w` writes `message` exactly once to every recipient of `targets`, and to no other. */
  ghost predicate WritesOnceEach<T>(w: seq<Sent<T>>, targets: set<T>, message: Message) {
    && Recipients(w) == targets
    && (forall i :: 0 <= i < |w| ==> w[i].message == message)
    && (forall i, j :: 0 <= i < j < |w| ==> w[i].to != w[j].to)
  }

  /** One more write of `message` to a recipient not yet written keeps `WritesOnceEach`. */
  lemma WritesOnceEachSnoc<T>(w: seq<Sent<T>>, targets: set<T>, message: Message, c: T)
    requires WritesOnceEach(w, targets, message) && c !in targets
    ensures WritesOnceEach(w + [Sent(c, message)], targets + {c}, message)
  {
    RecipientsSnoc(w, Sent(c, message));
    var w' := w + [Sent(c, message)];
    forall i, j | 0 <= i < j < |w'| ensures w'[i].to != w'[j].to {
      if j < |w| {
        assert w'[i] == w[i] && w'[j] == w[j];
      } else {
        assert w'[i] == w[i];
        assert w[i].to in Recipients(w);
      }
    }
  }

  /** `after` extends `before` with exactly one write of `message` to each of `targets`. */
  ghost predicate AppendsOneWriteEach<T>(before: seq<Sent<T>>, after: seq<Sent<T>>, targets: set<T>, message: Message) {
    && |before| <= |after|
    && after[..|before|] == before
    && WritesOnceEach(after[|before|..], targets, message)
  }

  /** `marks` cuts the writes `w` into `n` consecutive rounds: round `i` is
      `w[marks[i]..marks[i + 1]]`. */
  ghost predicate InRounds<T>(w: seq<Sent<T>>, marks: seq<nat>, n: nat) {
    && |marks| == n + 1
    && marks[0] == 0
    && marks[n] == |w|
    && forall i, j :: 0 <= i <= j <= n ==> marks[i] <= marks[j]
  }

  ghost function Round<T>(w: seq<Sent<T>>, marks: seq<nat>, n: nat, i: nat): seq<Sent<T>>
    requires InRounds(w, marks, n) && i < n
  {
    w[marks[i]..marks[i + 1]]
  }

  /** Appending the writes of one more round leaves the earlier rounds as they were. */
  lemma RoundsSnoc<T>(w: seq<Sent<T>>, marks: seq<nat>, n: nat, next: seq<Sent<T>>)
    requires InRounds(w, marks, n)
    ensures InRounds(w + next, marks + [|w| + |next|], n + 1)
    ensures Round(w + next, marks + [|w| + |next|], n + 1, n) == next
    ensures forall i :: 0 <= i < n ==> Round(w + next, marks + [|w| + |next|], n + 1, i) == Round(w, marks, n, i)
  {
    var w', marks' := w + next, marks + [|w| + |next|];
    assert InRounds(w', marks', n + 1);
    assert w'[marks'[n]..marks'[n + 1]] == next;
    forall i | 0 <= i < n ensures Round(w', marks', n + 1, i) == Round(w, marks, n, i) {
      assert w'[marks[i]..marks[i + 1]] == w[marks[i]..marks[i + 1]];
    }
  }

  // ---------------------------------------------------------------------------
  // strconv.Atoi

  predicate IsDigit(c: char) {
    '0' <= c <= '9'
  }

  predicate IsSign(c: char) {
    c == '+' || c == '-'
  }

  predicate AllDigits(s: string) {
    forall i :: 0 <= i < |s| ==> IsDigit(s[i])
  }

  /** The decimal value of a string of digits, most significant first. */
  function DigitsValue(s: string): nat
    requires AllDigits(s)
  {
    if s == [] then 0
    else DigitsValue(s[..|s| - 1]) * 10 + (s[|s| - 1] as int - '0' as int)
  }

  /** The strings `strconv.Atoi` accepts: an optional sign, then at least one digit. */
  predicate Numeral(s: string) {
    && |s| > 0
    && (IsSign(s[0]) ==> |s| >= 2)
    && forall i :: 0 <= i < |s| ==> IsDigit(s[i]) || (i == 0 && IsSign(s[i]))
  }

  /** `strconv.Atoi` on inputs shorter than 19 bytes (Go's fast path, which cannot
      overflow): an optional `+` or `-`, then one or more decimal digits; anything
      else is a syntax error, reported here as `None` (Go returns 0 with the error). */
  function Atoi(s: string): (r: Option<int>)
    ensures r.Some? <==> Numeral(s)
    ensures r.Some? && !IsSign(s[0]) ==> r.value >= 0
    ensures r.Some? && s[0] == '-' ==> r.value <= 0
  {
    if |s| > 0 && IsSign(s[0]) then
      var digits := s[1..];
      if digits != [] && AllDigits(digits) then
        assert Numeral(s) by {
          forall i | 1 <= i < |s| ensures IsDigit(s[i]) { assert s[i] == digits[i - 1]; }
        }
        var v: int := DigitsValue(digits);
        Some(if s[0] == '-' then -v else v)
      else
        assert !Numeral(s) by {
          if digits != [] {
            var k :| 0 <= k < |digits| && !IsDigit(digits[k]);
            assert s[k + 1] == digits[k];
          }
        }
        None
    else if s != [] && AllDigits(s) then
      Some(DigitsValue(s))
    else
      None
  }

  /** The decimal digits of `n`, without leading zeros (`strconv.Itoa` of a non-negative number). */
  function Digits(n: nat): (s: string)
    ensures |s| > 0 && AllDigits(s)
  {
    if n < 10 then [('0' as int + n) as char]
    else Digits(n / 10) + [('0' as int + n % 10) as char]
  }

  /** `strconv.Itoa`. */
  function Itoa(n: int): string {
    if n < 0 then "-" + Digits(-n) else Digits(n)
  }

  lemma {:induction false} DigitsValueOfDigits(n: nat)
    ensures DigitsValue(Digits(n)) == n
  {
    if n >= 10 {
      var s := Digits(n);
      assert s[..|s| - 1] == Digits(n / 10);
      DigitsValueOfDigits(n / 10);
    }
  }

  /** `strconv.Atoi` reads back what `strconv.Itoa` writes. */
  lemma AtoiItoa(n: int)
    ensures Atoi(Itoa(n)) == Some(n)
  {
    if n < 0 {
      var s := Itoa(n);
      assert s[1..] == Digits(-n);
      DigitsValueOfDigits(-n);
    } else {
      DigitsValueOfDigits(n);
    }
  }

  /** `n` as exactly two digits, zero-padded (the `MM` and `SS` fields of a clock string). */
  function Pad2(n: nat): (s: string)
    requires n < 100
    ensures |s| == 2 && AllDigits(s)
  {
    [('0' as int + n / 10) as char, ('0' as int + n % 10) as char]
  }

  lemma AtoiPad2(n: nat)
    requires n < 100
    ensures Atoi(Pad2(n)) == Some(n)
  {
    var s := Pad2(n);
    assert s[..1][..0] == [];
    assert DigitsValue(s[..1]) == n / 10;
  }

  // ---------------------------------------------------------------------------
  // Integer arithmetic

  function Abs(x: int): nat {
    if x < 0 then -x else x
  }

  /** Go's `a / b` on int: the quotient truncated toward zero (Dafny's `/` is Euclidean). */
  function Quot(a: int, b: int): (q: int)
    requires b != 0
    ensures Abs(q) == Abs(a) / Abs(b)
    ensures q < 0 ==> (a < 0) != (b < 0)
    ensures q > 0 ==> (a < 0) == (b < 0)
    ensures a >= 0 && b > 0 ==> q == a / b
  {
    var n := Abs(a) / Abs(b);
    DivNonNegative(Abs(a), Abs(b));
    if (a < 0) == (b < 0) then n else -n
  }

  /** A quotient of naturals is a natural. Stated as a lemma so that the
      solver receives the fact without unfolding the nonlinear division. */
  lemma DivNonNegative(x: nat, y: nat)
    requires y > 0
    ensures x / y >= 0
  {
  }

  /** For a positive divisor, Go's quotient times the divisor falls short of a
      non-negative dividend by less than one divisor, and never overshoots it. */
  lemma QuotBounds(a: int, b: int)
    requires a >= 0 && b > 0
    ensures 0 <= Quot(a, b) * b <= a < Quot(a, b) * b + b
  {
  }

  /** Go's conversion `int(x)` of a float: the fractional part is dropped. */
  function TruncateToInt(x: real): (n: int)
    ensures x >= 0.0 ==> (n as real) <= x < (n as real) + 1.0
    ensures x < 0.0 ==> (n as real) - 1.0 < x <= (n as real)
    ensures n > 0 ==> x >= 1.0
    ensures n < 0 ==> x <= -1.0
    ensures -1.0 < x < 1.0 ==> n == 0
  {
    if x >= 0.0 then x.Floor else -((-x).Floor)
  }
}
