/** The string operations of Go's standard library that the repository relies on. */
module Text {
  import opened Outcomes

  /** One character of strings.ToLower. Besides ASCII, the two letters outside ASCII whose
      lower case is an ASCII letter are mapped; every other character is left alone, which
      cannot change a comparison with an ASCII word. */
  function LowerChar(c: char): char {
    if 'A' <= c <= 'Z' then (c as int + 32) as char
    else if c == '\U{0130}' then 'i'
    else if c == '\U{212A}' then 'k'
    else c
  }

  /** One character of strings.ToUpper, with the same convention as LowerChar. */
  function UpperChar(c: char): char {
    if 'a' <= c <= 'z' then (c as int - 32) as char
    else if c == '\U{0131}' then 'I'
    else if c == '\U{017F}' then 'S'
    else c
  }

  /** ASCII letters change case and back; of the rest only four characters change, into ASCII letters. */
  lemma CaseOfLetters(c: char)
    ensures LowerChar(c) as int == if 65 <= c as int <= 90 then c as int + 32
                                   else if c as int == 0x130 then 105 else if c as int == 0x212A then 107 else c as int
    ensures UpperChar(c) as int == if 97 <= c as int <= 122 then c as int - 32
                                   else if c as int == 0x131 then 73 else if c as int == 0x17F then 83 else c as int
    ensures 'A' <= c <= 'Z' ==> UpperChar(LowerChar(c)) == c
    ensures 'a' <= c <= 'z' ==> LowerChar(UpperChar(c)) == c
  {
  }

  function Lower(s: string): (r: string)
    ensures |r| == |s|
  {
    seq(|s|, i requires 0 <= i < |s| => LowerChar(s[i]))
  }

  function Upper(s: string): (r: string)
    ensures |r| == |s|
  {
    seq(|s|, i requires 0 <= i < |s| => UpperChar(s[i]))
  }

  /** strings.Join */
  function Join(parts: seq<string>, sep: string): string {
    if |parts| == 0 then ""
    else if |parts| == 1 then parts[0]
    else parts[0] + sep + Join(parts[1..], sep)
  }

  function Digit(d: nat): char
    requires d < 10
  {
    ('0' as int + d) as char
  }

  /** The %d verb of fmt.Sprintf on a natural number. */
  function Decimal(n: nat): (s: string)
    ensures s != "" && forall i :: 0 <= i < |s| ==> '0' <= s[i] <= '9'
  {
    if n < 10 then [Digit(n)] else Decimal(n / 10) + [Digit(n % 10)]
  }

  predicate IsNumeral(s: string) {
    s != "" && forall i :: 0 <= i < |s| ==> '0' <= s[i] <= '9'
  }

  function ReadDecimal(s: string): nat
    requires forall i :: 0 <= i < |s| ==> '0' <= s[i] <= '9'
  {
    if s == "" then 0
    else ReadDecimal(s[..|s| - 1]) * 10 + (s[|s| - 1] as int - '0' as int)
  }

  lemma {:induction false} DecimalRoundTrip(n: nat)
    ensures ReadDecimal(Decimal(n)) == n
  {
    if n < 10 {
      assert Decimal(n)[..0] == "";
    } else {
      DecimalRoundTrip(n / 10);
      var s := Decimal(n);
      assert s[..|s| - 1] == Decimal(n / 10);
    }
  }

  /** strings.ToUpper keeps the lower-case form, for words over ASCII letters, digits and '_'. */
  lemma UpperThenLower(s: string)
    requires forall i :: 0 <= i < |s| ==> s[i] < '\U{0080}'
    ensures Lower(Upper(s)) == Lower(s)
  {
    forall i | 0 <= i < |s|
      ensures Lower(Upper(s))[i] == Lower(s)[i]
    {
      var c := s[i];
      if 'a' <= c <= 'z' {
        var u := (c as int - 32) as char;
        assert UpperChar(c) == u && 'A' <= u <= 'Z';
        assert (u as int + 32) as char == c;
      }
    }
  }
}
