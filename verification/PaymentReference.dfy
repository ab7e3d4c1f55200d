/**
 The deposit reference `DEP-<userId>-<timestamp>`: printed when a deposit is requested and parsed
 again, with the pattern `^DEP-(.+)-\d+$`, when the provider's answer has to find its user.
 */
module PaymentReference {
  import opened Wrappers
  import opened Text

  function Digit(d: nat): (c: char)
    requires d < 10
    ensures IsDigit(c) && c as int == '0' as int + d
  {
    '0' + d as char
  }

  function Decimal(n: nat): (s: string)
    ensures s != "" && AllDigits(s)
  {
    if n < 10 then [Digit(n)] else Decimal(n / 10) + [Digit(n % 10)]
  }

  /** The number a digit string denotes; the inverse of `Decimal`. */
  function Value(s: string): nat
    requires AllDigits(s)
  {
    if s == "" then 0 else 10 * Value(s[..|s| - 1]) + (s[|s| - 1] as int - '0' as int)
  }

  lemma {:induction false} ValueOfDecimal(n: nat)
    ensures Value(Decimal(n)) == n
  {
    if n >= 10 {
      ValueOfDecimal(n / 10);
      assert Decimal(n)[..|Decimal(n)| - 1] == Decimal(n / 10);
    }
  }

  const PREFIX := "DEP-"

  function Print(userId: string, timestamp: nat): string {
    PREFIX + userId + "-" + Decimal(timestamp)
  }

  /** What it means for the pattern to match `s` with capture group `group`. */
  ghost predicate Matches(s: string, group: string, digits: string) {
    && s == PREFIX + group + "-" + digits
    && group != "" && OneLine(group)
    && digits != "" && AllDigits(digits)
  }

  function LastHyphen(s: string): (k: int)
    ensures -1 <= k < |s|
    ensures k >= 0 ==> s[k] == '-'
    ensures forall i | k < i < |s| :: s[i] != '-'
  {
    if s == "" then -1
    else if s[|s| - 1] == '-' then |s| - 1
    else LastHyphen(s[..|s| - 1])
  }

  /** The capture group of the pattern, as the deposit path and the cycle's invariant read it. */
  function Parse(s: string): (group: Option<string>)
    ensures group.Some? ==> exists digits :: Matches(s, group.value, digits)
    ensures group.None? ==> forall g, digits :: !Matches(s, g, digits)
  {
    var k := LastHyphen(s);
    if && 4 < k < |s| - 1
       && s[..4] == PREFIX
       && AllDigits(s[k + 1..])
       && OneLine(s[4..k])
    then
      assert s == PREFIX + s[4..k] + "-" + s[k + 1..];
      assert Matches(s, s[4..k], s[k + 1..]);
      Some(s[4..k])
    else
      assert forall g, digits :: !Matches(s, g, digits) by {
        forall g, digits | Matches(s, g, digits) ensures false { MatchIsAtLastHyphen(s, g, digits); }
      }
      None
  }

  lemma MatchIsAtLastHyphen(s: string, group: string, digits: string)
    requires s == PREFIX + group + "-" + digits && AllDigits(digits)
    ensures var k := 4 + |group|;
            LastHyphen(s) == k && s[..4] == PREFIX && s[4..k] == group && s[k + 1..] == digits
  {
    var k := 4 + |group|;
    assert s[k] == '-';
    assert s[k + 1..] == digits;
    assert forall i | k < i < |s| :: s[i] == digits[i - k - 1];
    assert s[..4] == PREFIX;
    assert s[4..k] == group;
  }

  /**
   Parsing a printed reference gives back the user's id exactly when that id is not empty and has
   no line terminator; hyphens and digits inside it do no harm. Any other id is not recovered at all.
   */
  lemma ParseOfPrint(userId: string, timestamp: nat)
    ensures Parse(Print(userId, timestamp)) ==
            if userId != "" && OneLine(userId) then Some(userId) else None
  {
    var s := Print(userId, timestamp);
    var digits := Decimal(timestamp);
    MatchIsAtLastHyphen(s, userId, digits);
    if userId != "" && OneLine(userId) {
      assert Matches(s, userId, digits);
      var d :| Matches(s, Parse(s).value, d);
      MatchIsAtLastHyphen(s, Parse(s).value, d);
    }
  }

  /** Two requests share a reference only when they are the same user's in the same millisecond. */
  lemma PrintIsInjective(user1: string, time1: nat, user2: string, time2: nat)
    ensures Print(user1, time1) == Print(user2, time2) ==> user1 == user2 && time1 == time2
  {
    if Print(user1, time1) == Print(user2, time2) {
      MatchIsAtLastHyphen(Print(user1, time1), user1, Decimal(time1));
      MatchIsAtLastHyphen(Print(user2, time2), user2, Decimal(time2));
      ValueOfDecimal(time1);
      ValueOfDecimal(time2);
    }
  }
}
