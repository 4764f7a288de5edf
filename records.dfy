/**
 * The records the page receives from the remote data source, and the few
 * JavaScript value rules the program relies on: truthiness of an id and the
 * way a number is rendered into text (template literals, `dataset` and
 * `option.value` all turn a number into its decimal text).
 */
module Records {

  datatype Company = Company(name: string, catchPhrase: string)

  datatype User = User(id: int, name: string, company: Company)

  datatype Post = Post(id: int, title: string, body: string, userId: int)

  datatype Comment = Comment(id: int, postId: int, name: string, body: string, email: string)

  /** An identifier as the program receives it: missing, a JSON number, or the text of an attribute. */
  datatype JsId = Undef | Num(n: int) | Text(s: string)

  /** `!id` is false: `undefined`, the number 0 and the empty string are falsy. */
  predicate Truthy(id: JsId)
  {
    match id
    case Undef => false
    case Num(n) => n != 0
    case Text(s) => s != ""
  }

  /** The text `${id}` produces. */
  function Render(id: JsId): (s: string)
    ensures id.Num? ==> s == Decimal(id.n)
    ensures id.Text? ==> s == id.s
  {
    match id
    case Undef => "undefined"
    case Num(n) => Decimal(n)
    case Text(s) => s
  }

  predicate IsDigit(c: char)
  {
    '0' <= c <= '9'
  }

  function DigitChar(d: nat): (c: char)
    requires d < 10
    ensures IsDigit(c)
  {
    "0123456789"[d]
  }

  function DigitValue(c: char): (d: nat)
    requires IsDigit(c)
    ensures d < 10
  {
    (c as int - '0' as int) as nat
  }

  /** Decimal digits of a natural number, most significant first, without leading zeros. */
  function Digits(n: nat): (s: string)
    ensures |s| >= 1
    ensures forall i :: 0 <= i < |s| ==> IsDigit(s[i])
    ensures |s| > 1 ==> s[0] != '0'
  {
    if n < 10 then [DigitChar(n)] else Digits(n / 10) + [DigitChar(n % 10)]
  }

  /** Number-to-text conversion as JavaScript performs it for integers. */
  function Decimal(i: int): (s: string)
    ensures s != ""
    ensures s[0] == '-' <==> i < 0
    ensures forall k :: 0 <= k < |s| ==> IsDigit(s[k]) || (k == 0 && s[k] == '-')
  {
    if i < 0 then "-" + Digits(-i) else Digits(i)
  }

  /** Reads a run of decimal digits back into a number. */
  function ParseDigits(s: string): (n: nat)
    requires forall i :: 0 <= i < |s| ==> IsDigit(s[i])
  {
    if s == [] then 0 else ParseDigits(s[..|s| - 1]) * 10 + DigitValue(s[|s| - 1])
  }

  /** Reads the text of an integer back into the integer. */
  function ParseDecimal(s: string): (i: int)
    requires s != []
    requires forall i :: 0 <= i < |s| ==> IsDigit(s[i]) || (i == 0 && s[i] == '-')
  {
    if s[0] == '-' then -(ParseDigits(s[1..]) as int) else ParseDigits(s)
  }

  lemma {:induction false} DigitsRoundTrip(n: nat)
    ensures ParseDigits(Digits(n)) == n
  {
    if n >= 10 {
      var s := Digits(n);
      assert s[..|s| - 1] == Digits(n / 10);
      DigitsRoundTrip(n / 10);
      assert DigitValue(DigitChar(n % 10)) == n % 10;
    } else {
      assert DigitValue(DigitChar(n)) == n;
    }
  }

  /** Rendering an integer loses nothing: its text reads back as the same integer. */
  lemma DecimalRoundTrip(i: int)
    ensures ParseDecimal(Decimal(i)) == i
  {
    if i < 0 {
      assert Decimal(i)[1..] == Digits(-i);
      DigitsRoundTrip(-i);
    } else {
      DigitsRoundTrip(i);
    }
  }

  /** Distinct integers render to distinct texts, so a rendered post id identifies its post. */
  lemma DecimalInjective(i: int, j: int)
    requires Decimal(i) == Decimal(j)
    ensures i == j
  {
    DecimalRoundTrip(i);
    DecimalRoundTrip(j);
  }
}
