/** The user document, its wallet ledger and the schema's defaults, setters,
    validators and `pre('save')` hook (backend/src/models/user.model.ts). */
module UserModel {
  import opened Common

  /** The opening wallet balance the schema defaults to. */
  const DefaultWallet: int := 2000

  /** The `enum: ['debit', 'credit']` of a ledger entry's type. */
  datatype Kind = Debit | Credit

  datatype Transaction = Transaction(amount: int, kind: Kind, description: string, orderId: Option<Id>)

  /** bcrypt as an oracle: a digest remembers what it was computed from and the salt. */
  datatype Secret = Plain(text: string) | Digest(source: Secret, salt: nat)

  datatype User = User(
    name: string,
    email: string,
    password: Secret,
    wallet: int,
    transactions: seq<Transaction>)

  datatype UserSaveResult = UserSaved(user: User) | UserRejected(path: string)

  function KindName(k: Kind): string
  {
    match k
    case Debit => "debit"
    case Credit => "credit"
  }

  /** The enum validator: only the two names are accepted. */
  function ParseKind(s: string): (k: Option<Kind>)
    ensures k.Some? <==> (s == "debit" || s == "credit")
    ensures k.Some? ==> KindName(k.value) == s
  {
    if s == "debit" then Some(Debit) else if s == "credit" then Some(Credit) else None
  }

  lemma KindRoundTrip(k: Kind)
    ensures ParseKind(KindName(k)) == Some(k)
  {
  }

  /** A ledger entry passes its schema: the amount and type are typed, the
      description is required (a required string must not be empty). */
  predicate ValidTransaction(t: Transaction)
  {
    t.description != []
  }

  /** The signed effect of one entry on the wallet. */
  function Effect(t: Transaction): int
  {
    match t.kind
    case Credit => t.amount
    case Debit => -t.amount
  }

  /** Sum of credit amounts minus sum of debit amounts. */
  function Net(ledger: seq<Transaction>): int
  {
    if ledger == [] then 0 else Effect(ledger[0]) + Net(ledger[1..])
  }

  lemma {:induction false} NetAppend(ledger: seq<Transaction>, t: Transaction)
    ensures Net(ledger + [t]) == Net(ledger) + Effect(t)
  {
    if ledger == [] {
      assert ledger + [t] == [t];
    } else {
      assert (ledger + [t])[1..] == ledger[1..] + [t];
      NetAppend(ledger[1..], t);
    }
  }

  /** The wallet is the opening balance plus the ledger's credits minus its debits. */
  predicate Balanced(u: User)
  {
    u.wallet == DefaultWallet + Net(u.transactions)
  }

  /** The email setters, `trim` then `lowercase`. */
  function NormalizeEmail(email: string): string
  {
    ToLower(Trim(email))
  }

  lemma {:induction false} ToLowerIdempotent(s: string)
    ensures ToLower(ToLower(s)) == ToLower(s)
  {
  }

  lemma {:induction false} LowerCharKeepsSpace(c: char)
    ensures IsSpace(LowerChar(c)) <==> IsSpace(c)
  {
  }

  /** Storing an email and querying with the stored value finds it again:
      the setters are idempotent. */
  lemma {:induction false} NormalizeEmailIdempotent(email: string)
    ensures NormalizeEmail(NormalizeEmail(email)) == NormalizeEmail(email)
  {
    var t := Trim(email);
    var l := ToLower(t);
    if l != [] {
      LowerCharKeepsSpace(t[0]);
      LowerCharKeepsSpace(t[|t| - 1]);
    }
    assert TrimStart(l) == l;
    assert TrimEnd(l) == l;
    ToLowerIdempotent(t);
  }

  /** `new User({...})`: the schema fills in wallet 2000 and an empty ledger
      when they are not given, and runs the setters. */
  function NewUser(name: string, email: string, password: string,
                   wallet: Option<int>, transactions: Option<seq<Transaction>>): (u: User)
    ensures wallet.None? ==> u.wallet == DefaultWallet
    ensures transactions.None? ==> u.transactions == []
    ensures wallet.Some? ==> u.wallet == wallet.value
    ensures transactions.Some? ==> u.transactions == transactions.value
    ensures u.name == Trim(name) && u.email == NormalizeEmail(email) && u.password == Plain(password)
  {
    User(Trim(name), NormalizeEmail(email), Plain(password),
         match wallet case Some(w) => w case None => DefaultWallet,
         match transactions case Some(l) => l case None => [])
  }

  lemma NewUserIsBalanced(name: string, email: string, password: string)
    ensures Balanced(NewUser(name, email, password, None, None))
  {
  }

  /** The length the `minlength: 6` validator sees: the text itself, or a
      60-character bcrypt string. */
  function SecretLength(s: Secret): nat
  {
    match s
    case Plain(t) => |t|
    case Digest(_, _) => 60
  }

  /** `pre('save')`: rehash the password only when the password path was modified. */
  function PreSave(u: User, passwordModified: bool, salt: nat): (saved: User)
    ensures !passwordModified ==> saved == u
    ensures passwordModified ==> saved == u.(password := Digest(u.password, salt))
  {
    if !passwordModified then u else u.(password := Digest(u.password, salt))
  }

  /** `bcrypt.compare(candidate, user.password)` */
  predicate PasswordMatches(candidate: string, stored: Secret)
  {
    stored.Digest? && stored.source == Plain(candidate)
  }

  /** Every schema validator passes on the document. */
  predicate ValidUser(u: User)
  {
    && u.name != [] && u.email != [] && SecretLength(u.password) >= 6
    && forall i :: 0 <= i < |u.transactions| ==> ValidTransaction(u.transactions[i])
  }

  /** `user.save()`: validation runs first, then the `pre('save')` hook. */
  function SaveUser(u: User, passwordModified: bool, salt: nat): (r: UserSaveResult)
    ensures r.UserSaved? <==> ValidUser(u)
    ensures r.UserSaved? ==> r.user == PreSave(u, passwordModified, salt)
  {
    if u.name == [] then UserRejected("name")
    else if u.email == [] then UserRejected("email")
    else if SecretLength(u.password) < 6 then UserRejected("password")
    else if exists i :: 0 <= i < |u.transactions| && !ValidTransaction(u.transactions[i]) then UserRejected("transactions")
    else UserSaved(PreSave(u, passwordModified, salt))
  }

  /** A password hashed at signup still matches after any later save that did
      not touch the password, such as the wallet debit of an order. */
  lemma PasswordSurvivesLedgerSave(u: User, candidate: string, wallet: int,
                                   ledger: seq<Transaction>, salt: nat)
    requires PasswordMatches(candidate, u.password)
    requires SaveUser(u.(wallet := wallet, transactions := ledger), false, salt).UserSaved?
    ensures PasswordMatches(candidate, SaveUser(u.(wallet := wallet, transactions := ledger), false, salt).user.password)
  {
  }

  /** A debit of `amount` with a fresh ledger entry keeps the wallet balanced. */
  lemma {:induction false} DebitKeepsBalance(u: User, amount: int, description: string, orderId: Id)
    requires Balanced(u)
    ensures Balanced(u.(wallet := u.wallet - amount,
                        transactions := u.transactions + [Transaction(amount, Debit, description, Some(orderId))]))
  {
    NetAppend(u.transactions, Transaction(amount, Debit, description, Some(orderId)));
  }
}
