/** The user of a container, written as a user and a group number with a colon between them. */
module UserString {
  import opened Wrappers

  datatype Security = Security(user: int, group: int)

  const ABSENT := -1

  // ----- writing -----

  function Digit(d: nat): char
    requires d < 10
  {
    "0123456789"[d]
  }

  function Digits(n: nat): string {
    if n < 10 then [Digit(n)] else Digits(n / 10) + [Digit(n % 10)]
  }

  /** Base ten, with a minus sign for negative numbers and no superfluous zeros. */
  function FormatInt(n: int): string {
    if n < 0 then "-" + Digits(-n) else Digits(n)
  }

  /** Absent numbers are left out, and the colon goes with the group. */
  method BuildUser(security: Security) returns (text: string)
    ensures text == UserText(security)
    ensures ParseUser(text) == Some(security)
  {
    text := "";
    if security.user != ABSENT {
      text := text + FormatInt(security.user);
    }
    if security.group != ABSENT {
      text := text + ":";
      text := text + FormatInt(security.group);
    }
    assert security.user != ABSENT ==> "" + FormatInt(security.user) == FormatInt(security.user);
    assert text == UserText(security);
    RoundTrip(security);
  }

  function UserText(security: Security): string {
    (if security.user == ABSENT then "" else FormatInt(security.user))
    + (if security.group == ABSENT then "" else ":" + FormatInt(security.group))
  }

  /** The user that the container gets: the image decides when there are no settings or they say nothing. */
  method ResolveUser(security: Option<Security>, imageUser: string) returns (text: string)
    ensures security.None? || (security.value.user == -1 && security.value.group == -1) ==> text == imageUser
    ensures security.Some? && (security.value.user != -1 || security.value.group != -1) ==>
              text == UserText(security.value) && ParseUser(text) == Some(security.value) && text != ""
  {
    text := "";
    if security.Some? {
      text := BuildUser(security.value);
      assert ParseUser("") == Some(Security(ABSENT, ABSENT));
    }
    if text == "" {
      text := imageUser;
    }
  }

  // ----- reading -----

  function DigitValue(c: char): Option<nat> {
    if '0' <= c <= '9' then Some((c as int) - ('0' as int)) else None
  }

  function ParseNat(s: string): Option<nat> {
    if s == [] then None
    else
      var last := DigitValue(s[|s| - 1]);
      if last.None? then None
      else if |s| == 1 then last
      else
        var high := ParseNat(s[..|s| - 1]);
        if high.None? then None else Some(10 * high.value + last.value)
  }

  function ParseInt(s: string): Option<int> {
    if s != [] && s[0] == '-' then
      var n: Option<int> := ParseNat(s[1..]);
      if n.None? then None else Some(-n.value)
    else
      var n: Option<int> := ParseNat(s);
      if n.None? then None else Some(n.value)
  }

  /** The place of the first colon, or the length of the text. */
  function Colon(s: string): nat
    ensures Colon(s) <= |s|
  {
    if s == [] || s[0] == ':' then 0 else 1 + Colon(s[1..])
  }

  /** An empty part, or a missing colon, stands for an absent number. */
  function ParseUser(s: string): Option<Security> {
    var k := Colon(s);
    var user: Option<int> := if k == 0 then Some(ABSENT) else ParseInt(s[..k]);
    var group: Option<int> := if k == |s| then Some(ABSENT) else ParseInt(s[k + 1..]);
    if user.None? || group.None? then None else Some(Security(user.value, group.value))
  }

  // ----- the round trip -----

  predicate AllDigits(s: string) { forall i | 0 <= i < |s| :: '0' <= s[i] <= '9' }

  lemma DigitBack(d: nat)
    requires d < 10
    ensures DigitValue(Digit(d)) == Some(d) && '0' <= Digit(d) <= '9'
  {
  }

  lemma {:induction false} DigitsRoundTrip(n: nat)
    ensures ParseNat(Digits(n)) == Some(n) && AllDigits(Digits(n)) && Digits(n) != []
  {
    DigitBack(n % 10);
    if n >= 10 {
      DigitsRoundTrip(n / 10);
      assert Digits(n)[..|Digits(n)| - 1] == Digits(n / 10);
    }
  }

  lemma IntRoundTrip(n: int)
    ensures ParseInt(FormatInt(n)) == Some(n) && FormatInt(n) != [] && ':' !in FormatInt(n)
  {
    DigitsRoundTrip(if n < 0 then -n else n);
    if n < 0 {
      assert FormatInt(n)[1..] == Digits(-n);
    }
  }

  lemma {:induction false} ColonAfter(a: string, b: string)
    requires ':' !in a && (b == [] || b[0] == ':')
    ensures Colon(a + b) == |a|
  {
    if a == [] {
      assert a + b == b;
    } else {
      assert (a + b)[1..] == a[1..] + b;
      ColonAfter(a[1..], b);
    }
  }

  /** Where a text with a colon after `a`, or no colon at all, comes apart. */
  lemma ComesApart(a: string, b: string)
    requires ':' !in a && (b == [] || b[0] == ':')
    ensures Colon(a + b) == |a| && (a + b)[..|a|] == a && (b != [] ==> (a + b)[|a| + 1..] == b[1..])
  {
    ColonAfter(a, b);
  }

  /** Every pair of numbers can be read back from its text, negative numbers and absent ones included. */
  lemma RoundTrip(security: Security)
    ensures ParseUser(UserText(security)) == Some(security)
  {
    var a := if security.user == ABSENT then "" else FormatInt(security.user);
    var b := if security.group == ABSENT then "" else ":" + FormatInt(security.group);
    IntRoundTrip(security.user);
    IntRoundTrip(security.group);
    ComesApart(a, b);
    assert b != [] ==> b[1..] == FormatInt(security.group);
  }

  /** So different settings give different texts, and only settings that say nothing give the empty text. */
  lemma TextsDiffer(a: Security, b: Security)
    ensures UserText(a) == UserText(b) <==> a == b
    ensures UserText(a) == "" <==> a.user == -1 && a.group == -1
  {
    RoundTrip(a);
    RoundTrip(b);
    RoundTrip(Security(ABSENT, ABSENT));
    assert UserText(Security(ABSENT, ABSENT)) == "";
  }

  /** What the texts look like: user first, most significant digit first, and nothing for -1. */
  lemma Examples()
    ensures UserText(Security(0, 0)) == "0:0" && UserText(Security(1000, -1)) == "1000"
    ensures UserText(Security(-1, 27)) == ":27" && UserText(Security(-5, 12)) == "-5:12"
    ensures UserText(Security(-1, -1)) == ""
  {
    assert Digits(12) == Digits(1) + ['2'] && Digits(27) == Digits(2) + ['7'];
    assert Digits(1000) == Digits(100) + ['0'] && Digits(100) == Digits(10) + ['0'] && Digits(10) == Digits(1) + ['0'];
  }

  /** An absent number contributes nothing, and a present one its own text. */
  lemma PartsOfText(security: Security)
    ensures security.user == -1 && security.group != -1 ==> UserText(security) == ":" + FormatInt(security.group)
    ensures security.user != -1 && security.group == -1 ==> UserText(security) == FormatInt(security.user)
    ensures security.user != -1 && security.group != -1 ==>
              UserText(security) == FormatInt(security.user) + ":" + FormatInt(security.group)
  {
    assert security.group == -1 ==> FormatInt(security.user) + "" == FormatInt(security.user);
    assert FormatInt(security.user) + (":" + FormatInt(security.group))
        == FormatInt(security.user) + ":" + FormatInt(security.group);
  }
}
