/**
 * The field validators of the account forms (openlane/src/util.js). Each
 * regular expression of the source is written out as a predicate on strings.
 */
module Util {
  import opened Wrappers
  import opened Accounts

  // ---------------------------------------------------------------------------
  // Character classes

  /** JavaScript's `\s`: the ECMAScript WhiteSpace and LineTerminator code points. */
  predicate IsSpace(c: char) {
    || c == '\t' || c == '\n' || c == '\U{000B}' || c == '\U{000C}' || c == '\r'
    || c == ' ' || c == '\U{00A0}' || c == '\U{1680}'
    || ('\U{2000}' <= c <= '\U{200A}')
    || c == '\U{2028}' || c == '\U{2029}' || c == '\U{202F}' || c == '\U{205F}'
    || c == '\U{3000}' || c == '\U{FEFF}'
  }

  /** The bracket classes the validators match against. */
  datatype CharClass =
    | Upper        // [A-Z]
    | Lower        // [a-z]
    | Digit        // [0-9], which is also `\d`
    | NonAlnum     // [^A-Za-z0-9]
    | DigitOrPlus  // [\d+]

  predicate InClass(c: char, k: CharClass) {
    match k
    case Upper => 'A' <= c <= 'Z'
    case Lower => 'a' <= c <= 'z'
    case Digit => '0' <= c <= '9'
    case NonAlnum => !('A' <= c <= 'Z' || 'a' <= c <= 'z' || '0' <= c <= '9')
    case DigitOrPlus => '0' <= c <= '9' || c == '+'
  }

  predicate AllIn(s: string, k: CharClass) {
    forall i :: 0 <= i < |s| ==> InClass(s[i], k)
  }

  /**
   * `s.match(/[k]/g) || []`: the characters of `s` in class `k`, in order.
   * Removing every character outside a class, as `s.replace(/[^k]/g, '')`
   * does, yields the same string.
   */
  function MatchAll(s: string, k: CharClass): (r: string)
    ensures |r| <= |s|
    ensures AllIn(r, k)
  {
    if s == [] then []
    else (if InClass(s[0], k) then [s[0]] else []) + MatchAll(s[1..], k)
  }

  /** A string is in a class exactly when both of its parts are. */
  lemma AllInConcat(a: string, b: string, k: CharClass)
    ensures AllIn(a + b, k) <==> AllIn(a, k) && AllIn(b, k)
  {
    if AllIn(a + b, k) {
      forall i | 0 <= i < |a| ensures InClass(a[i], k) {
        assert a[i] == (a + b)[i];
      }
      forall i | 0 <= i < |b| ensures InClass(b[i], k) {
        assert b[i] == (a + b)[|a| + i];
      }
    }
    if AllIn(a, k) && AllIn(b, k) {
      forall i | 0 <= i < |a + b| ensures InClass((a + b)[i], k) {
        if i < |a| {
          assert (a + b)[i] == a[i];
        } else {
          assert (a + b)[i] == b[i - |a|];
        }
      }
    }
  }

  /** A match keeps every occurrence of the characters in the class and nothing else. */
  lemma {:induction false} MatchAllMultiset(s: string, k: CharClass, c: char)
    ensures multiset(MatchAll(s, k))[c] == if InClass(c, k) then multiset(s)[c] else 0
  {
    if s != [] {
      MatchAllMultiset(s[1..], k, c);
      assert s == [s[0]] + s[1..];
    }
  }

  /** Matching distributes over concatenation: matches are found left to right. */
  lemma {:induction false} MatchAllAppend(a: string, b: string, k: CharClass)
    ensures MatchAll(a + b, k) == MatchAll(a, k) + MatchAll(b, k)
  {
    if a == [] {
      assert a + b == b;
    } else {
      var head := if InClass(a[0], k) then [a[0]] else [];
      assert (a + b)[0] == a[0];
      assert (a + b)[1..] == a[1..] + b;
      assert MatchAll(a + b, k) == head + MatchAll(a[1..] + b, k);
      MatchAllAppend(a[1..], b, k);
      assert MatchAll(a, k) == head + MatchAll(a[1..], k);
    }
  }

  /** A match count depends only on which characters occur, not where. */
  lemma MatchCountPermutation(a: string, b: string, k: CharClass)
    requires multiset(a) == multiset(b)
    ensures |MatchAll(a, k)| == |MatchAll(b, k)|
  {
    var ra, rb := MatchAll(a, k), MatchAll(b, k);
    assert multiset(ra) == multiset(rb) by {
      forall c ensures multiset(ra)[c] == multiset(rb)[c] {
        MatchAllMultiset(a, k, c);
        MatchAllMultiset(b, k, c);
      }
    }
    assert |ra| == |multiset(ra)| && |rb| == |multiset(rb)|;
  }

  /**
   * Upper-case letters, lower-case letters, digits and the remaining characters
   * split a string: every character is counted by exactly one of the four classes.
   */
  lemma {:induction false} MatchCountsPartition(s: string)
    ensures |MatchAll(s, Upper)| + |MatchAll(s, Lower)| + |MatchAll(s, Digit)| + |MatchAll(s, NonAlnum)| == |s|
  {
    if s != [] {
      MatchCountsPartition(s[1..]);
    }
  }

  // ---------------------------------------------------------------------------
  // E-mail

  /** `[^\s@]` */
  predicate EmailChar(c: char) {
    !IsSpace(c) && c != '@'
  }

  predicate AllEmailChars(s: string) {
    forall k :: 0 <= k < |s| ==> EmailChar(s[k])
  }

  /** `/^[^\s@]+@[^\s@]+\.[^\s@]+$/.test(email)` */
  predicate ValidateEmail(email: string) {
    exists i, j | 0 < i < |email| && i + 1 < j < |email| - 1 ::
      && email[i] == '@' && email[j] == '.'
      && AllEmailChars(email[..i])
      && AllEmailChars(email[i + 1..j])
      && AllEmailChars(email[j + 1..])
  }

  /** The pattern's three runs together cover every character but the `@` and the `.`. */
  lemma EmailPartsCover(email: string, i: int, j: int, k: int)
    requires 0 < i < |email| && i + 1 < j < |email| - 1
    requires AllEmailChars(email[..i]) && AllEmailChars(email[i + 1..j]) && AllEmailChars(email[j + 1..])
    requires 0 <= k < |email| && k != i && k != j
    ensures EmailChar(email[k])
  {
    if k < i {
      assert email[..i][k] == email[k];
    } else if k < j {
      assert email[i + 1..j][k - i - 1] == email[k];
    } else {
      assert email[j + 1..][k - j - 1] == email[k];
    }
  }

  /** The shape `ValidateEmailShape` gives the pattern, for a chosen `@` and `.`. */
  predicate EmailShapeAt(email: string, i: int, j: int) {
    && 1 <= i < |email| && email[i] == '@'
    && (forall k :: 0 <= k < |email| && email[k] == '@' ==> k == i)
    && i + 2 <= j <= |email| - 2 && email[j] == '.'
  }

  /**
   * The e-mail pattern holds exactly when the string has no white space, exactly
   * one `@`, not in first position, and a `.` after it with text on both sides.
   */
  lemma ValidateEmailShape(email: string)
    ensures ValidateEmail(email) <==>
      && (forall k :: 0 <= k < |email| ==> !IsSpace(email[k]))
      && exists i, j :: EmailShapeAt(email, i, j)
  {
    if ValidateEmail(email) {
      var i, j :| 0 < i < |email| && i + 1 < j < |email| - 1
        && email[i] == '@' && email[j] == '.'
        && AllEmailChars(email[..i]) && AllEmailChars(email[i + 1..j]) && AllEmailChars(email[j + 1..]);
      forall k | 0 <= k < |email| && k != i && k != j ensures EmailChar(email[k]) {
        EmailPartsCover(email, i, j, k);
      }
      assert EmailShapeAt(email, i, j);
    }
    if && (forall k :: 0 <= k < |email| ==> !IsSpace(email[k]))
       && exists i, j :: EmailShapeAt(email, i, j)
    {
      var i, j :| EmailShapeAt(email, i, j);
      assert AllEmailChars(email[..i]);
      assert AllEmailChars(email[i + 1..j]);
      assert AllEmailChars(email[j + 1..]);
    }
  }

  // ---------------------------------------------------------------------------
  // Account existence

  /** The source's `undefined` when the slot is absent is `None`; callers test it for truthiness. */
  predicate Truthy(b: Option<bool>) {
    b == Some(true)
  }

  /**
   * `checkUserDoesNotExist(email)`: true when no stored account has exactly this
   * e-mail, false when one has, and `undefined` when the slot is absent.
   */
  function CheckUserDoesNotExist(slot: Option<seq<Account>>, email: string): (r: Option<bool>)
    ensures r == None <==> slot == None
    ensures slot.Some? ==> (r == Some(true) <==> forall a :: a in slot.value ==> a.email != email)
  {
    match slot
    case None => None
    case Some(accounts) => if EmailTaken(accounts, email) then Some(false) else Some(true)
  }

  // ---------------------------------------------------------------------------
  // Name

  /** `name.length >= 3` */
  predicate ValidateName(name: string) {
    |name| >= 3
  }

  /** A three-character name passes, although the form's message asks for more than three. */
  lemma ValidateNameBoundary(name: string)
    ensures |name| == 3 ==> ValidateName(name)
    ensures |name| == 2 ==> !ValidateName(name)
  {
  }

  // ---------------------------------------------------------------------------
  // Password

  /** Length 10 to 32, at least two of [A-Z], two of [0-9] and one of [^A-Za-z0-9]. */
  predicate ValidatePassword(password: string) {
    var validLength := |password| >= 10 && |password| <= 32;
    var uppercaseCount := |MatchAll(password, Upper)|;
    var numberCount := |MatchAll(password, Digit)|;
    var specialCharacterCount := |MatchAll(password, NonAlnum)|;
    validLength && uppercaseCount >= 2 && numberCount >= 2 && specialCharacterCount >= 1
  }

  /** Password strength counts characters per class: rearranging a password never changes the verdict. */
  lemma ValidatePasswordIgnoresOrder(a: string, b: string)
    requires multiset(a) == multiset(b)
    ensures ValidatePassword(a) == ValidatePassword(b)
  {
    MatchCountPermutation(a, b, Upper);
    MatchCountPermutation(a, b, Digit);
    MatchCountPermutation(a, b, NonAlnum);
    assert |a| == |multiset(a)| && |b| == |multiset(b)|;
  }

  /** A valid password has at most 27 lower-case letters and at most 29 digits. */
  lemma ValidatePasswordBounds(password: string)
    requires ValidatePassword(password)
    ensures |MatchAll(password, Lower)| <= 27
    ensures |MatchAll(password, Digit)| <= 29
  {
    MatchCountsPartition(password);
  }

  // ---------------------------------------------------------------------------
  // Phone number

  /** `\d{m}\d{10}` matches all of `s`. */
  predicate DigitRuns(s: string, m: nat) {
    |s| == m + 10 && AllIn(s[..m], Digit) && AllIn(s[m..], Digit)
  }

  /** `/^\+?[1-9]\d{0,2}\d{10}$/.test(s)` */
  predicate PhoneRegexTest(s: string) {
    var rest := if |s| > 0 && s[0] == '+' then s[1..] else s;
    && |rest| >= 1
    && '1' <= rest[0] <= '9'
    && exists m: nat | m <= 2 :: DigitRuns(rest[1..], m)
  }

  /**
   * `validatePhoneNumber(number)`: an absent or empty number is accepted (the
   * field is optional); otherwise only the digits and `+` signs are kept and
   * the residue must match the international-number pattern.
   */
  function ValidatePhoneNumber(number: Option<string>): (r: bool)
    ensures number == None || number == Some("") ==> r
  {
    if number == None || number.value == "" then true
    else PhoneRegexTest(MatchAll(number.value, DigitOrPlus))
  }

  /**
   * A non-empty number is valid exactly when its digits-and-plus residue is an
   * optional `+` followed by 11 to 13 digits, the first of them not `0`.
   */
  lemma ValidatePhoneNumberShape(number: string)
    requires number != ""
    ensures ValidatePhoneNumber(Some(number)) <==>
      var r := MatchAll(number, DigitOrPlus);
      var d := if |r| > 0 && r[0] == '+' then r[1..] else r;
      11 <= |d| <= 13 && AllIn(d, Digit) && d[0] != '0'
  {
    var r := MatchAll(number, DigitOrPlus);
    var d := if |r| > 0 && r[0] == '+' then r[1..] else r;
    if 11 <= |d| <= 13 && AllIn(d, Digit) && d[0] != '0' {
      var m := |d| - 11;
      var tail := d[1..];
      assert d == [d[0]] + tail;
      AllInConcat([d[0]], tail, Digit);
      assert tail == tail[..m] + tail[m..];
      AllInConcat(tail[..m], tail[m..], Digit);
      assert DigitRuns(tail, m);
      assert PhoneRegexTest(r);
    }
    if PhoneRegexTest(r) {
      var tail := d[1..];
      assert exists m: nat | m <= 2 :: DigitRuns(tail, m);
      var m: nat :| m <= 2 && DigitRuns(tail, m);
      assert |tail| == m + 10;
      assert tail == tail[..m] + tail[m..];
      AllInConcat(tail[..m], tail[m..], Digit);
      assert d == [d[0]] + tail;
      assert AllIn([d[0]], Digit);
      AllInConcat([d[0]], tail, Digit);
      assert 11 <= |d| <= 13 && AllIn(d, Digit) && d[0] != '0';
    }
  }

  /**
   * Spaces, dashes, parentheses and every other character that is neither a
   * digit nor `+` may be inserted into a number without changing the verdict,
   * as long as the number was not empty before.
   */
  lemma ValidatePhoneNumberIgnoresSeparator(a: string, b: string, c: char)
    requires !InClass(c, DigitOrPlus) && a + b != ""
    ensures ValidatePhoneNumber(Some(a + [c] + b)) == ValidatePhoneNumber(Some(a + b))
  {
    MatchAllAppend(a + [c], b, DigitOrPlus);
    MatchAllAppend(a, [c], DigitOrPlus);
    MatchAllAppend(a, b, DigitOrPlus);
    assert MatchAll([c], DigitOrPlus) == [] by {
      assert [c][1..] == [];
    }
    assert MatchAll(a + [c] + b, DigitOrPlus) == MatchAll(a + b, DigitOrPlus) by {
      assert MatchAll(a, DigitOrPlus) + [] == MatchAll(a, DigitOrPlus);
    }
  }

  /** A string wholly inside the class is its own match. */
  lemma {:induction false} MatchAllWithinClass(s: string, k: CharClass)
    requires AllIn(s, k)
    ensures MatchAll(s, k) == s
  {
    if s != [] {
      MatchAllWithinClass(s[1..], k);
    }
  }

  /** A string wholly outside the class has no match. */
  lemma {:induction false} MatchAllOutsideClass(s: string, k: CharClass)
    requires forall i :: 0 <= i < |s| ==> !InClass(s[i], k)
    ensures MatchAll(s, k) == []
  {
    if s != [] {
      MatchAllOutsideClass(s[1..], k);
    }
  }

  /**
   * A `+`, a leading digit from 1 to 9 and ten more digits, the E.164 form the
   * sign-up stores (for instance `+15615128712`), is accepted.
   */
  lemma ValidatePhoneNumberAcceptsE164(lead: char, subscriber: string)
    requires '1' <= lead <= '9' && |subscriber| == 10 && AllIn(subscriber, Digit)
    ensures ValidatePhoneNumber(Some(['+', lead] + subscriber))
  {
    var s := ['+', lead] + subscriber;
    assert AllIn(['+', lead], DigitOrPlus);
    AllInConcat(['+', lead], subscriber, DigitOrPlus);
    MatchAllWithinClass(s, DigitOrPlus);
    assert s[1..][1..] == subscriber;
    assert subscriber[..0] == [] && subscriber[0..] == subscriber;
    assert DigitRuns(subscriber, 0);
    assert PhoneRegexTest(s);
  }

  /** A three-digit number is too short. */
  lemma ValidatePhoneNumberRejectsShort()
    ensures !ValidatePhoneNumber(Some("123"))
  {
    assert AllIn("123", DigitOrPlus);
    MatchAllWithinClass("123", DigitOrPlus);
    assert "123"[1..] == "23";
    assert forall m: nat :: !DigitRuns("23", m);
  }

  /** Text without digits is rejected. */
  lemma ValidatePhoneNumberRejectsText()
    ensures !ValidatePhoneNumber(Some("not-a-number"))
  {
    var s := "not-a-number";
    assert forall i :: 0 <= i < |s| ==> !InClass(s[i], DigitOrPlus);
    MatchAllOutsideClass(s, DigitOrPlus);
  }

  /** A non-empty number made only of separators is rejected, although the empty one is accepted. */
  lemma ValidatePhoneNumberSeparatorsOnly(number: string)
    requires number != "" && MatchAll(number, DigitOrPlus) == ""
    ensures !ValidatePhoneNumber(Some(number))
  {
  }

  // ---------------------------------------------------------------------------
  // Colour

  /**
   * `validateColour(colour)`: an absent or empty colour is rejected, every other
   * string is accepted; there is no palette check and no trimming.
   */
  function ValidateColour(colour: Option<string>): (r: bool)
    ensures r <==> colour != None && colour.value != ""
  {
    if colour == None || |colour.value| == 0 then false else true
  }
}
