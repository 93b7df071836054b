/** The checkout page (doomwear/src/pages/CheckoutPage.tsx): the card-number
    and expiry input handlers, the form schema, the choice of the order's
    status and the order request it posts. React's rendering is left out;
    the two handlers are methods on the state they write. */
module CheckoutPage {
  import opened Common
  import opened Store
  import ProductPage
  import OrderRoutes

  // ---------------------------------------------------------------------
  // Card number
  // ---------------------------------------------------------------------

  /** `s.replace(/(\d{4})/g, "$1 ")`: scanning left to right, every run of
      four digits that starts where the scan stands gets a space after it;
      any other character is copied and the scan moves on by one. */
  function Group(s: string): string
    decreases |s|
  {
    if |s| >= 4 && AllDigits(s[..4]) then s[..4] + " " + Group(s[4..])
    else if s == [] then []
    else [s[0]] + Group(s[1..])
  }

  /** `formatCardNumber`: drop white space, group, trim. */
  function FormatCardNumber(s: string): string
  {
    Trim(Group(StripSpaces(s)))
  }

  /** The reference layout of a card number: blocks of four separated by one
      space, the last block holding what remains. */
  function Spaced(d: string): string
    decreases |d|
  {
    if |d| <= 4 then d else d[..4] + " " + Spaced(d[4..])
  }

  /** Grouping only adds spaces. */
  lemma {:induction false} GroupStrip(s: string)
    ensures StripSpaces(Group(s)) == StripSpaces(s)
    decreases |s|
  {
    if |s| >= 4 && AllDigits(s[..4]) {
      GroupStrip(s[4..]);
      StripSpacesAppend(s[..4] + " ", Group(s[4..]));
      StripSpacesAppend(s[..4], " ");
      StripSpacesOfDigits(s[..4]);
      assert s == s[..4] + s[4..];
      StripSpacesAppend(s[..4], s[4..]);
    } else if s != [] {
      GroupStrip(s[1..]);
      assert Group(s) == [s[0]] + Group(s[1..]);
      StripSpacesAppend([s[0]], Group(s[1..]));
      assert s == [s[0]] + s[1..];
      StripSpacesAppend([s[0]], s[1..]);
    }
  }

  lemma StripSpacesOfDigits(d: string)
    requires AllDigits(d)
    ensures StripSpaces(d) == d
  {
    assert NoSpace(d);
    StripSpacesOfNoSpace(d);
  }

  /** Removing the spaces from the formatted number gives back the typed text
      with its spaces removed: formatting never adds, drops or reorders a
      character other than white space. */
  lemma {:induction false} FormatKeepsContent(s: string)
    ensures StripSpaces(FormatCardNumber(s)) == StripSpaces(s)
  {
    var g := Group(StripSpaces(s));
    StripSpacesOfTrim(g);
    GroupStrip(StripSpaces(s));
    StripSpacesOfNoSpace(StripSpaces(s));
  }

  /** Formatting a formatted number changes nothing. */
  lemma {:induction false} FormatIdempotent(s: string)
    ensures FormatCardNumber(FormatCardNumber(s)) == FormatCardNumber(s)
  {
    FormatKeepsContent(s);
  }

  /** Fewer than four characters hold no run of four digits. */
  lemma {:induction false} GroupShort(s: string)
    requires |s| < 4
    ensures Group(s) == s
    decreases |s|
  {
    if s != [] {
      GroupShort(s[1..]);
      assert s == [s[0]] + s[1..];
    }
  }

  /** On digits, grouping is the reference layout with one trailing space
      when the last block is full. */
  lemma {:induction false} GroupOfDigits(d: string)
    requires AllDigits(d)
    ensures Group(d) == Spaced(d) + (if |d| > 0 && |d| % 4 == 0 then " " else "")
    decreases |d|
  {
    if |d| < 4 {
      GroupShort(d);
    } else {
      GroupOfDigits(d[4..]);
      if |d| == 4 {
        assert d[4..] == [];
        assert Group(d) == d[..4] + " ";
        assert d[..4] == d;
      }
    }
  }

  /** The reference layout: each character at a position `i` with
      `i % 5 == 4` is the single separating space, every other one is the
      digit `d[i - i / 5]`; 16 digits take 19 characters. */
  lemma {:induction false} SpacedLayout(d: string)
    ensures |Spaced(d)| == if d == [] then 0 else |d| + (|d| - 1) / 4
    ensures forall i :: 0 <= i < |Spaced(d)| ==>
              if i % 5 == 4 then Spaced(d)[i] == ' ' else Spaced(d)[i] == d[i - i / 5]
    decreases |d|
  {
    if |d| > 4 {
      SpacedLayout(d[4..]);
      var r := Spaced(d[4..]);
      assert Spaced(d) == d[..4] + " " + r;
      forall i | 5 <= i < |Spaced(d)|
        ensures if i % 5 == 4 then Spaced(d)[i] == ' ' else Spaced(d)[i] == d[i - i / 5]
      {
        assert Spaced(d)[i] == r[i - 5];
      }
    }
  }

  /** On digits the layout has no white space at either end. */
  lemma SpacedTrimmed(d: string)
    requires AllDigits(d)
    ensures IsTrimmed(Spaced(d))
  {
    SpacedLayout(d);
    if d != [] {
      var n := |Spaced(d)|;
      assert Spaced(d)[0] == d[0];
      assert (n - 1) % 5 != 4;
      assert Spaced(d)[n - 1] == d[(n - 1) - (n - 1) / 5];
    }
  }

  lemma {:induction false} TrimOfTrailingSpace(x: string)
    requires IsTrimmed(x) && x != []
    ensures Trim(x + " ") == x
  {
    assert TrimStart(x + " ") == x + " ";
    assert (x + " ")[..|x|] == x;
    assert TrimEnd(x + " ") == TrimEnd(x);
    assert TrimEnd(x) == x;
  }

  /** On up to sixteen digits, `formatCardNumber` is the reference layout:
      groups of four with exactly one space between consecutive groups, none
      at either end, and at most the 19 characters the input allows. */
  lemma {:induction false} FormatOfDigits(d: string)
    requires AllDigits(d)
    ensures FormatCardNumber(d) == Spaced(d)
    ensures |d| == 16 ==> |FormatCardNumber(d)| == 19
    ensures |d| <= 16 ==> |FormatCardNumber(d)| <= 19
    ensures forall i :: 0 <= i < |FormatCardNumber(d)| ==>
              (FormatCardNumber(d)[i] == ' ' <==> i % 5 == 4)
  {
    FormatIsSpaced(d);
    SpacedLayout(d);
  }

  lemma {:induction false} FormatIsSpaced(d: string)
    requires AllDigits(d)
    ensures FormatCardNumber(d) == Spaced(d)
  {
    StripSpacesOfDigits(d);
    GroupOfDigits(d);
    SpacedTrimmed(d);
    SpacedLayout(d);
    if |d| > 0 && |d| % 4 == 0 {
      TrimOfTrailingSpace(Spaced(d));
    } else {
      assert Group(d) == Spaced(d);
      TrimOfTrimmed(Spaced(d));
    }
  }

  /** The longest number the card handler accepts. */
  const CardDigits: nat := 16

  /** `value.length <= 16 && /^\d*$/.test(value)` */
  predicate CardEntry(value: string)
  {
    |value| <= CardDigits && AllDigits(value)
  }

  // ---------------------------------------------------------------------
  // Expiry date
  // ---------------------------------------------------------------------

  function Min(a: int, b: int): int
  {
    if a <= b then a else b
  }

  /** `0[1-9]|1[0-2]` */
  predicate ValidMonth(a: char, b: char)
  {
    (a == '0' && '1' <= b <= '9') || (a == '1' && '0' <= b <= '2')
  }

  /** `/^(0[1-9]|1[0-2])\/\d{2}$/` */
  predicate ExpiryPattern(s: string)
  {
    |s| == 5 && ValidMonth(s[0], s[1]) && s[2] == '/' && IsDigit(s[3]) && IsDigit(s[4])
  }

  /** `handleExpiryDateChange`'s value: only the digits are kept; with more
      than two, the first two, a slash and at most two more. */
  function FormatExpiry(typed: string): (value: string)
    ensures var d := OnlyDigits(typed);
            && (|d| <= 2 ==> value == d)
            && (|d| > 2 ==> |value| == Min(|d|, 4) + 1 && value[2] == '/')
  {
    var d := OnlyDigits(typed);
    if |d| > 2 then d[..2] + "/" + d[2..Min(|d|, 4)] else d
  }

  /** The formatted entry keeps the first four digits typed, in order, and
      nothing else but the slash in third place, which appears exactly when
      more than two digits were typed; it matches the schema's `MM/YY`
      pattern exactly when four digits were typed and the first two are a
      month. */
  lemma {:induction false} FormatExpiryLayout(typed: string)
    ensures var d := OnlyDigits(typed);
            var value := FormatExpiry(typed);
            && |value| <= 5
            && OnlyDigits(value) == d[..Min(|d|, 4)]
            && (|value| > 2 && value[2] == '/' <==> |d| > 2)
            && (forall i :: 0 <= i < |value| && i != 2 ==> IsDigit(value[i]))
            && (ExpiryPattern(value) <==> |d| >= 4 && ValidMonth(d[0], d[1]))
  {
    var d := OnlyDigits(typed);
    if |d| > 2 {
      OnlyDigitsAppend(d[..2] + "/", d[2..Min(|d|, 4)]);
      OnlyDigitsAppend(d[..2], "/");
      OnlyDigitsOfDigits(d[..2]);
      OnlyDigitsOfDigits(d[2..Min(|d|, 4)]);
      assert OnlyDigits("/") == [];
      assert d[..Min(|d|, 4)] == d[..2] + d[2..Min(|d|, 4)];
    } else {
      OnlyDigitsOfDigits(d);
      assert d[..Min(|d|, 4)] == d;
    }
  }

  /** Handing the shown text back to the handler (the next keystroke that
      changes nothing) gives the same text. */
  lemma {:induction false} FormatExpiryIdempotent(typed: string)
    ensures FormatExpiry(FormatExpiry(typed)) == FormatExpiry(typed)
  {
    var d := OnlyDigits(typed);
    var value := FormatExpiry(typed);
    FormatExpiryLayout(typed);
    var d' := OnlyDigits(value);
    assert d' == d[..Min(|d|, 4)];
    if |d| > 2 {
      assert d'[..2] == d[..2] && d'[2..Min(|d'|, 4)] == d[2..Min(|d|, 4)];
    }
  }

  // ---------------------------------------------------------------------
  // Expiry against the clock
  // ---------------------------------------------------------------------

  /** The present month, as `new Date()` reads it; `month` is 1..12. */
  datatype Clock = Clock(year: int, month: int)

  function DigitValue(c: char): int
  {
    c as int - '0' as int
  }

  /** `2000 + parseInt(year)` of a well-formed expiry. */
  function ExpiryYear(s: string): int
    requires ExpiryPattern(s)
  {
    2000 + 10 * DigitValue(s[3]) + DigitValue(s[4])
  }

  /** `parseInt(month)` of a well-formed expiry. */
  function ExpiryMonth(s: string): int
    requires ExpiryPattern(s)
  {
    10 * DigitValue(s[0]) + DigitValue(s[1])
  }

  /** Months counted from year 0, so that comparing two instants at month
      granularity is comparing two integers. */
  function MonthIndex(year: int, month: int): int
  {
    12 * year + month - 1
  }

  /** The refine as written: `new Date(2000 + yy, mm - 1) > new Date()`. The
      left side is the first instant of the printed month, so it is later
      than the present exactly when the printed month is later than the
      present month. */
  predicate NotExpiredAsWritten(s: string, now: Clock)
    requires ExpiryPattern(s)
  {
    MonthIndex(ExpiryYear(s), ExpiryMonth(s)) > MonthIndex(now.year, now.month)
  }

  /** A card is valid through the end of its printed month. */
  predicate NotExpired(s: string, now: Clock)
    requires ExpiryPattern(s)
  {
    MonthIndex(ExpiryYear(s), ExpiryMonth(s)) >= MonthIndex(now.year, now.month)
  }

  /** The refine as written refuses a card from the first day of its printed
      month on: "10/26" is refused in October 2026 and accepted in September. */
  lemma ExpiredInOwnMonth(s: string, now: Clock)
    requires ExpiryPattern(s) && 1 <= now.month <= 12
    ensures NotExpiredAsWritten(s, now) <==>
              now.year < ExpiryYear(s) || (now.year == ExpiryYear(s) && now.month < ExpiryMonth(s))
    ensures !NotExpiredAsWritten("10/26", Clock(2026, 10))
    ensures NotExpiredAsWritten("10/26", Clock(2026, 9))
  {
  }

  /** The corrected check accepts a card up to and including its printed
      month and refuses it from the next month on. */
  lemma NotExpiredThroughMonth(s: string, now: Clock)
    requires ExpiryPattern(s) && 1 <= now.month <= 12
    ensures NotExpired(s, now) <==>
              now.year < ExpiryYear(s) || (now.year == ExpiryYear(s) && now.month <= ExpiryMonth(s))
    ensures NotExpired("10/26", Clock(2026, 10))
    ensures !NotExpired("10/26", Clock(2026, 11))
  {
  }

  /** The two checks disagree only on a card in its own printed month, which
      the check as written refuses and the corrected one accepts. */
  lemma ExpiryChecksDiffer(s: string, now: Clock)
    requires ExpiryPattern(s) && 1 <= now.month <= 12
    ensures NotExpiredAsWritten(s, now) ==> NotExpired(s, now)
    ensures NotExpired(s, now) && !NotExpiredAsWritten(s, now) <==>
              ExpiryYear(s) == now.year && ExpiryMonth(s) == now.month
  {
  }

  // ---------------------------------------------------------------------
  // The form schema
  // ---------------------------------------------------------------------

  /** `/^\d{n}$/` */
  predicate ExactDigits(s: string, n: nat)
  {
    |s| == n && AllDigits(s)
  }

  datatype CheckoutValues = CheckoutValues(
    email: string, firstName: string, lastName: string, address: string,
    apartment: string, city: string, state: string, pinCode: string,
    cardNumber: string, expiryDate: string, cvv: string)

  datatype CheckoutField =
    | EmailField | FirstNameField | LastNameField | AddressField | CityField
    | StateField | PinCodeField | CardNumberField | ExpiryDateField | CvvField

  /** The expiry rule of `formSchema` as written: the pattern, then the
      refine's `>` comparison. */
  predicate ExpiryAccepted(s: string, now: Clock)
  {
    ExpiryPattern(s) && NotExpiredAsWritten(s, now)
  }

  /** The contact fields `formSchema` reports; the email rule is the
      library's and stays abstract. The optional apartment field accepts
      anything. */
  function ContactErrors(v: CheckoutValues, isEmail: string -> bool): (errors: set<CheckoutField>)
    ensures EmailField in errors <==> !isEmail(v.email)
    ensures FirstNameField in errors <==> |v.firstName| < 2
    ensures LastNameField in errors <==> |v.lastName| < 2
    ensures AddressField in errors <==> |v.address| < 5
    ensures CityField in errors <==> |v.city| < 2
    ensures StateField in errors <==> |v.state| < 2
    ensures PinCodeField in errors <==> !ExactDigits(v.pinCode, 6)
    ensures errors !! {CardNumberField, ExpiryDateField, CvvField}
  {
    (if isEmail(v.email) then {} else {EmailField})
    + (if |v.firstName| >= 2 then {} else {FirstNameField})
    + (if |v.lastName| >= 2 then {} else {LastNameField})
    + (if |v.address| >= 5 then {} else {AddressField})
    + (if |v.city| >= 2 then {} else {CityField})
    + (if |v.state| >= 2 then {} else {StateField})
    + (if ExactDigits(v.pinCode, 6) then {} else {PinCodeField})
  }

  /** The payment fields `formSchema` reports. */
  function PaymentErrors(v: CheckoutValues, now: Clock): (errors: set<CheckoutField>)
    ensures CardNumberField in errors <==> !ExactDigits(v.cardNumber, 16)
    ensures ExpiryDateField in errors <==> !ExpiryAccepted(v.expiryDate, now)
    ensures CvvField in errors <==> !ExactDigits(v.cvv, 3)
    ensures errors <= {CardNumberField, ExpiryDateField, CvvField}
  {
    (if ExactDigits(v.cardNumber, 16) then {} else {CardNumberField})
    + (if ExpiryAccepted(v.expiryDate, now) then {} else {ExpiryDateField})
    + (if ExactDigits(v.cvv, 3) then {} else {CvvField})
  }

  /** Every field `formSchema` reports; the form submits only when there is none. */
  function CheckoutErrors(v: CheckoutValues, isEmail: string -> bool, now: Clock): (errors: set<CheckoutField>)
    ensures errors == {} <==>
              && isEmail(v.email) && |v.firstName| >= 2 && |v.lastName| >= 2 && |v.address| >= 5
              && |v.city| >= 2 && |v.state| >= 2 && ExactDigits(v.pinCode, 6)
              && ExactDigits(v.cardNumber, 16) && ExpiryAccepted(v.expiryDate, now) && ExactDigits(v.cvv, 3)
  {
    var contact := ContactErrors(v, isEmail);
    var payment := PaymentErrors(v, now);
    assert contact == {} <==> (EmailField !in contact && FirstNameField !in contact && LastNameField !in contact
                               && AddressField !in contact && CityField !in contact && StateField !in contact
                               && PinCodeField !in contact);
    assert payment == {} <==> (CardNumberField !in payment && ExpiryDateField !in payment && CvvField !in payment);
    contact + payment
  }

  // ---------------------------------------------------------------------
  // The card and expiry inputs
  // ---------------------------------------------------------------------

  /** What the card input keeps: the form value is at most sixteen digits
      and the input shows it formatted (by `FormatOfDigits`, in the reference
      layout and within the 19 characters the input allows). */
  predicate CardShown(value: string, text: string)
  {
    CardEntry(value) && text == FormatCardNumber(value)
  }

  /** What the expiry input keeps: it shows the form value, at most five
      characters. */
  predicate ExpiryShown(value: string, text: string)
  {
    text == value && |value| <= 5
  }

  /** The two payment inputs: the form values and the text each input
      element was last given by its handler. Each handler keeps its input's
      predicate above and leaves the other input alone. */
  class CheckoutForm {
    var cardNumber: string
    var cardText: string
    var expiryDate: string
    var expiryText: string

    /** The form's default values. */
    constructor ()
      ensures CardShown(cardNumber, cardText) && ExpiryShown(expiryDate, expiryText)
      ensures cardNumber == "" && cardText == "" && expiryDate == "" && expiryText == ""
    {
      cardNumber := "";
      cardText := "";
      expiryDate := "";
      expiryText := "";
      assert StripSpaces("") == "" && Group("") == "";
    }

    /** `handleCardNumberChange`: with white space removed, an entry of at
        most sixteen digits becomes the form value and is shown formatted;
        any other entry changes nothing. */
    method HandleCardNumberChange(typed: string)
      requires CardShown(cardNumber, cardText)
      modifies this
      ensures CardShown(cardNumber, cardText)
      ensures CardEntry(StripSpaces(typed)) ==>
                cardNumber == StripSpaces(typed) && cardText == FormatCardNumber(cardNumber)
      ensures !CardEntry(StripSpaces(typed)) ==> cardNumber == old(cardNumber) && cardText == old(cardText)
      ensures expiryDate == old(expiryDate) && expiryText == old(expiryText)
    {
      var value := StripSpaces(typed);
      if CardEntry(value) {
        cardNumber := value;
        cardText := FormatCardNumber(cardNumber);
      }
    }

    /** `handleExpiryDateChange`: the formatted entry becomes both the input's
        text and the form value. */
    method HandleExpiryDateChange(typed: string)
      modifies this
      ensures ExpiryShown(expiryDate, expiryText)
      ensures expiryDate == FormatExpiry(typed)
      ensures var d := OnlyDigits(typed);
              && OnlyDigits(expiryDate) == d[..Min(|d|, 4)]
              && (ExpiryPattern(expiryDate) <==> |d| >= 4 && ValidMonth(d[0], d[1]))
      ensures cardNumber == old(cardNumber) && cardText == old(cardText)
    {
      var value := FormatExpiry(typed);
      FormatExpiryLayout(typed);
      expiryText := value;
      expiryDate := value;
    }
  }

  /** What the card input shows is a fixed point of the handler: handing the
      shown text back (the next keystroke that changes nothing) yields the
      same form value and the same text. The form value passes the schema's
      card rule exactly when the input is full, at 19 characters. */
  lemma {:induction false} ShownCardReenters(value: string, text: string)
    requires CardShown(value, text)
    ensures StripSpaces(text) == value && CardEntry(StripSpaces(text))
    ensures FormatCardNumber(StripSpaces(text)) == text
    ensures ExactDigits(value, 16) <==> |text| == 19
  {
    FormatKeepsContent(value);
    StripSpacesOfDigits(value);
    FormatOfDigits(value);
    SpacedLayout(value);
  }

  // ---------------------------------------------------------------------
  // Submitting
  // ---------------------------------------------------------------------

  const RandomStatus: string := "random"

  /** The outcomes `simulateTransaction` draws from. */
  const Outcomes: seq<string> := ["success", "declined", "error"]

  /** The end-status buttons. */
  const StatusButtons: seq<string> := ["success", "declined", "error", "random"]

  /** The status `onSubmit` sends: the selected one, or on "random" the
      outcome at the drawn position. */
  function ChooseStatus(selected: string, draw: nat): (status: string)
    requires draw < |Outcomes|
    ensures selected != RandomStatus ==> status == selected
    ensures selected in StatusButtons ==> status in Outcomes
  {
    if selected == RandomStatus then Outcomes[draw] else selected
  }

  /** The body `onSubmit` posts. The total is the server's reading of the
      client's `toFixed(2)` text; an absent image stays absent, since JSON
      leaves out an `undefined` property. */
  function OrderPayload(v: CheckoutValues, selection: ProductPage.Selection, status: string,
                        total: OrderRoutes.Amount, orderNumber: string): (r: OrderRoutes.OrderRequest)
    ensures r.customerInfo == CustomerInfo(v.firstName + " " + v.lastName, v.email, v.address,
                                          v.apartment, v.city, v.state, v.pinCode)
    ensures r.totalAmount == total && r.status == status && r.orderNumber == orderNumber
    ensures r.productId == selection.productId && r.quantity == selection.quantity
    ensures r.color == selection.color && r.size == selection.size && r.image == selection.image
  {
    OrderRoutes.OrderRequest(
      CustomerInfo(v.firstName + " " + v.lastName, v.email, v.address, v.apartment,
                   v.city, v.state, v.pinCode),
      selection.productId, selection.color, selection.size, selection.quantity,
      selection.image,
      total, status, orderNumber)
  }

  /** A selected end status other than "random" is the status of the posted
      order. */
  lemma PayloadCarriesSelectedStatus(v: CheckoutValues, selection: ProductPage.Selection,
                                     selected: string, draw: nat,
                                     total: OrderRoutes.Amount, orderNumber: string)
    requires draw < |Outcomes| && selected != RandomStatus
    ensures OrderPayload(v, selection, ChooseStatus(selected, draw), total, orderNumber).status == selected
  {
  }

  /** Choosing "declined" or "error" (or drawing either) posts an order that
      the server records without touching any stock or wallet. */
  lemma {:induction false} FailedCheckoutMovesNothing(s: State, userId: Id, v: CheckoutValues,
                                                     selection: ProductPage.Selection,
                                                     selected: string, draw: nat,
                                                     total: OrderRoutes.Amount, orderNumber: string)
    requires draw < |Outcomes|
    requires ChooseStatus(selected, draw) != OrderRoutes.SuccessStatus
    ensures var req := OrderPayload(v, selection, ChooseStatus(selected, draw), total, orderNumber);
            var (s', _) := OrderRoutes.Place(s, userId, req);
            s'.products == s.products && s'.users == s.users
  {
    var req := OrderPayload(v, selection, ChooseStatus(selected, draw), total, orderNumber);
    OrderRoutes.PlaceNonSuccess(s, userId, req);
  }
}
