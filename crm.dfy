/**
 * The customer record of crm/models.py: the language-level codes and the
 * name and email properties, which come from the linked user account when
 * there is one and from the customer's own fields otherwise.
 */
module Crm {
  import opened Wrappers

  /** The letters of the levels, in the order the inner loop of `LEVELS` takes them. */
  const Letters := "ABC"
  /** The digits of the levels, `str(i)` for `i` in `range(1, 4)`. */
  const LevelDigits := "123"

  /** The codes of one digit: A, B and C followed by `d`. */
  function CodesWithDigit(d: char): (r: seq<string>)
    ensures |r| == |Letters|
    ensures forall j :: 0 <= j < |r| ==> r[j] == [Letters[j], d]
  {
    seq(|Letters|, j requires 0 <= j < |Letters| => [Letters[j], d])
  }

  /** The codes of `LEVELS`, digit-major: the outer loop runs over `digits`. */
  function Codes(digits: seq<char>): seq<string>
  {
    if digits == [] then [] else CodesWithDigit(digits[0]) + Codes(digits[1..])
  }

  /** `Customer.LEVELS`: each code paired with itself as its label. */
  function Levels(): (r: seq<(string, string)>)
    ensures |r| == |Codes(LevelDigits)|
    ensures forall k :: 0 <= k < |r| ==> r[k].0 == r[k].1 == Codes(LevelDigits)[k]
  {
    var codes := Codes(LevelDigits);
    seq(|codes|, k requires 0 <= k < |codes| => (codes[k], codes[k]))
  }

  /** A code of the shape the levels have: one of the letters, then one of the digits. */
  predicate WellFormed(code: string)
  {
    |code| == 2 && code[0] in Letters && code[1] in LevelDigits
  }

  /** A code is among those built from `digits` exactly when it is a letter followed by one of them. */
  lemma {:induction false} CodesMembership(digits: seq<char>, code: string)
    ensures code in Codes(digits) <==> |code| == 2 && code[0] in Letters && code[1] in digits
  {
    if digits != [] {
      CodesMembership(digits[1..], code);
      var here := CodesWithDigit(digits[0]);
      if code in here {
        var j :| 0 <= j < |here| && here[j] == code;
        assert code[0] == Letters[j];
      }
      if |code| == 2 && code[0] in Letters && code[1] == digits[0] {
        var j :| 0 <= j < |Letters| && Letters[j] == code[0];
        assert here[j] == code;
      }
      if |code| == 2 && code[1] in digits && code[1] != digits[0] {
        assert code[1] in digits[1..];
      }
    }
  }

  /** The level codes are exactly the well-formed codes; every one fits the two-character column. */
  lemma LevelCodes(code: string)
    ensures code in Codes(LevelDigits) <==> WellFormed(code)
    ensures code in Codes(LevelDigits) ==> |code| <= 2
  {
    CodesMembership(LevelDigits, code);
  }

  /** `LEVELS` lists nine codes, digit-major, and the default 'A1' is the first. */
  lemma LevelsInOrder()
    ensures Codes(LevelDigits) == ["A1", "B1", "C1", "A2", "B2", "C2", "A3", "B3", "C3"]
    ensures |Levels()| == 9 && Levels()[0] == ("A1", "A1")
  {
    assert LevelDigits[1..] == "23" && LevelDigits[1..][1..] == "3" && LevelDigits[1..][1..][1..] == [];
    assert CodesWithDigit('1') == ["A1", "B1", "C1"];
    assert CodesWithDigit('2') == ["A2", "B2", "C2"];
    assert CodesWithDigit('3') == ["A3", "B3", "C3"];
  }

  /** The stock user account a customer may be linked to. */
  datatype User = User(email: string, firstName: string, lastName: string)

  datatype Customer = Customer(user: Option<User>, customerFirstName: string, customerLastName: string,
                               customerEmail: string, startingLevel: string, currentLevel: string)

  /** A customer as created without explicit levels: both levels take the default 'A1', which is one of the choices. */
  function NewCustomer(user: Option<User>, first: string, last: string, email: string): (c: Customer)
    ensures c.user == user && c.customerFirstName == first && c.customerLastName == last && c.customerEmail == email
    ensures c.startingLevel == "A1" && c.currentLevel == "A1"
    ensures c.startingLevel in Codes(LevelDigits) && c.currentLevel in Codes(LevelDigits)
  {
    LevelsInOrder();
    Customer(user, first, last, email, "A1", "A1")
  }

  /** The properties that live on the user account when there is one. */
  datatype Property = Email | FirstName | LastName

  /** The attribute name of a property on the user account. */
  function AttributeName(p: Property): string
  {
    match p
    case Email => "email"
    case FirstName => "first_name"
    case LastName => "last_name"
  }

  /** The name of the customer's own field for a property: the attribute name behind `customer_`. */
  function FieldName(p: Property): (r: string)
    ensures |r| == 9 + |AttributeName(p)| && r[..9] == "customer_" && r[9..] == AttributeName(p)
  {
    "customer_" + AttributeName(p)
  }

  /** `getattr(user, name)`: the value of a user attribute, by name. */
  function UserAttribute(u: User, name: string): Option<string>
  {
    if name == "email" then Some(u.email)
    else if name == "first_name" then Some(u.firstName)
    else if name == "last_name" then Some(u.lastName)
    else None
  }

  /** `getattr(customer, name)`: the value of one of the customer's own text fields, by name. */
  function CustomerAttribute(c: Customer, name: string): Option<string>
  {
    if name == "customer_email" then Some(c.customerEmail)
    else if name == "customer_first_name" then Some(c.customerFirstName)
    else if name == "customer_last_name" then Some(c.customerLastName)
    else None
  }

  /**
   * `_get_user_property`: the user's attribute when a user is linked, the
   * customer's `customer_` field otherwise. Every property names an
   * attribute that exists on both sides.
   */
  function GetUserProperty(c: Customer, p: Property): (r: string)
    ensures c.user.Some? ==> Some(r) == UserAttribute(c.user.value, AttributeName(p))
    ensures c.user.None? ==> Some(r) == CustomerAttribute(c, FieldName(p))
  {
    if c.user.Some? then
      match p
      case Email => c.user.value.email
      case FirstName => c.user.value.firstName
      case LastName => c.user.value.lastName
    else
      match p
      case Email => c.customerEmail
      case FirstName => c.customerFirstName
      case LastName => c.customerLastName
  }

  /** `Customer.email`. */
  function EmailOf(c: Customer): (r: string)
    ensures r == if c.user.Some? then c.user.value.email else c.customerEmail
  {
    GetUserProperty(c, Email)
  }

  /** `Customer.first_name`. */
  function FirstNameOf(c: Customer): (r: string)
    ensures r == if c.user.Some? then c.user.value.firstName else c.customerFirstName
  {
    GetUserProperty(c, FirstName)
  }

  /** `Customer.last_name`. */
  function LastNameOf(c: Customer): (r: string)
    ensures r == if c.user.Some? then c.user.value.lastName else c.customerLastName
  {
    GetUserProperty(c, LastName)
  }

  /** `Customer.full_name`: first name, a space, last name. */
  function FullName(c: Customer): (r: string)
    ensures |r| == |FirstNameOf(c)| + 1 + |LastNameOf(c)|
    ensures r[..|FirstNameOf(c)|] == FirstNameOf(c) && r[|FirstNameOf(c)|] == ' '
    ensures r[|FirstNameOf(c)| + 1..] == LastNameOf(c)
  {
    FirstNameOf(c) + " " + LastNameOf(c)
  }

  /** `Customer.__str__`: the full name. */
  function Str(c: Customer): (r: string)
    ensures r == FullName(c)
  {
    FullName(c)
  }

  /** Splits a string at its first space, if it has one. */
  function SplitAtFirstSpace(s: string): Option<(string, string)>
  {
    if s == [] then None
    else if s[0] == ' ' then Some(([], s[1..]))
    else match SplitAtFirstSpace(s[1..])
      case None => None
      case Some((a, b)) => Some(([s[0]] + a, b))
  }

  /** A first part without a space is recovered by splitting at the first space. */
  lemma {:induction false} SplitJoined(a: string, b: string)
    requires ' ' !in a
    ensures SplitAtFirstSpace(a + " " + b) == Some((a, b))
  {
    if a == [] {
      assert a + " " + b == [' '] + b;
      assert ([' '] + b)[1..] == b;
    } else {
      SplitJoined(a[1..], b);
      assert (a + " " + b)[1..] == a[1..] + " " + b;
      assert [a[0]] + a[1..] == a;
    }
  }

  /** When the first name has no space, the full name splits back into the first and last names. */
  lemma FullNameSplits(c: Customer)
    requires ' ' !in FirstNameOf(c)
    ensures SplitAtFirstSpace(FullName(c)) == Some((FirstNameOf(c), LastNameOf(c)))
  {
    SplitJoined(FirstNameOf(c), LastNameOf(c));
  }

  /** With a linked user, the customer's own name and email fields are never read. */
  lemma LinkedUserShadowsFields(c: Customer, first: string, last: string, email: string)
    requires c.user.Some?
    ensures var d := c.(customerFirstName := first, customerLastName := last, customerEmail := email);
            FullName(d) == FullName(c) && EmailOf(d) == EmailOf(c)
  {
  }
}
