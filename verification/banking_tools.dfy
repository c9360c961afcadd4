/** The banking crew's tools: the balance, the recent transactions, the
    banking knowledge search and the account status. Balances are printed
    with the `,.2f` format: thousands separated by commas, two decimals. */
module BankingTools {
  import opened Text
  import opened Wrappers
  import opened Settings
  import opened Relation
  import opened Store
  import opened Knowledge

  // ---------------------------------------------------------------------
  // The `,.2f` rendering of a balance

  /** A number below 1000 in three digits, zero-padded. */
  function Pad3(n: int): (s: string)
    requires 0 <= n <= 999
    ensures |s| == 3
    ensures forall i :: 0 <= i < 3 ==> '0' <= s[i] <= '9'
  {
    [Digit(n / 100)] + Pad2(n % 100)
  }

  /** The integer part: decimal digits in groups of three separated by
      commas. Counting from the end, every fourth character is a comma and
      every other one a digit; as the first character is a digit, the first
      group has one to three digits. */
  function Grouped(n: nat): (s: string)
    ensures |s| > 0 && '0' <= s[0] <= '9'
    ensures forall i :: 0 <= i < |s| ==> (s[i] == ',' <==> (|s| - i) % 4 == 0)
    ensures forall i :: 0 <= i < |s| && s[i] != ',' ==> '0' <= s[i] <= '9'
    decreases n
  {
    if n < 1000 then
      ShortDecimal(n);
      Decimal(n)
    else
      AppendGroup(Grouped(n / 1000), Pad3(n % 1000));
      Grouped(n / 1000) + "," + Pad3(n % 1000)
  }

  /** Appending a comma and three digits keeps the comma at every fourth
      place from the end. */
  lemma AppendGroup(g: string, p: string)
    requires forall i :: 0 <= i < |g| ==> (g[i] == ',' <==> (|g| - i) % 4 == 0)
    requires forall i :: 0 <= i < |g| && g[i] != ',' ==> '0' <= g[i] <= '9'
    requires |p| == 3 && forall i :: 0 <= i < 3 ==> '0' <= p[i] <= '9'
    ensures var s := g + "," + p;
      && (forall i :: 0 <= i < |s| ==> (s[i] == ',' <==> (|s| - i) % 4 == 0))
      && (forall i :: 0 <= i < |s| && s[i] != ',' ==> '0' <= s[i] <= '9')
  {
    var s := g + "," + p;
    forall i | 0 <= i < |s|
      ensures (s[i] == ',' <==> (|s| - i) % 4 == 0)
      ensures s[i] != ',' ==> '0' <= s[i] <= '9'
    {
      if i < |g| {
        assert s[i] == g[i];
        ShiftByFour(|g| - i);
      } else if i > |g| {
        assert s[i] == p[i - |g| - 1];
      }
    }
  }

  lemma ShiftByFour(k: int)
    ensures (k + 4) % 4 == k % 4
  {
  }

  /** A number below 1000 has at most three decimal digits. */
  lemma ShortDecimal(n: nat)
    requires n < 1000
    ensures |Decimal(n)| <= 3
  {
    if n >= 10 {
      assert Decimal(n) == Decimal(n / 10) + [Digit(n % 10)];
      if n / 10 >= 10 {
        assert Decimal(n / 10) == Decimal(n / 100) + [Digit((n / 10) % 10)];
      }
    }
  }

  function Magnitude(c: int): nat {
    if c < 0 then -c else c
  }

  /** `format(c / 100, ',.2f')` for a balance of `c` hundredths. */
  function MoneyText(c: Cents): (s: string)
    ensures |s| >= 4 && s[|s| - 3] == '.'
    ensures s[0] == '-' <==> c < 0
  {
    var m := Magnitude(c);
    (if c < 0 then "-" else "") + Grouped(m / 100) + "." + Pad2(m % 100)
  }

  /** The text with its thousands separators removed. */
  function Ungroup(s: string): string {
    if |s| == 0 then "" else (if s[0] == ',' then "" else [s[0]]) + Ungroup(s[1..])
  }

  /** The digits before the point of a rendering, after any sign. */
  function WholePart(s: string): string
    requires |s| >= 4
  {
    if s[0] == '-' then s[1..|s| - 3] else s[..|s| - 3]
  }

  /** Hundredths from a sign, the whole units and the decimals. */
  function Combine(negative: bool, whole: Option<nat>, decimals: Option<nat>): Option<Cents> {
    match (whole, decimals)
    case (Some(w), Some(f)) =>
      var v: int := 100 * w + f;
      Some(if negative then -v else v)
    case _ => None
  }

  /** Read a `,.2f` rendering back into hundredths. */
  function ReadMoney(s: string): Option<Cents> {
    if |s| < 4 || s[|s| - 3] != '.' then None
    else Combine(s[0] == '-', DecimalValue(Ungroup(WholePart(s))), DecimalValue(s[|s| - 2..]))
  }

  lemma {:induction false} UngroupAppend(a: string, b: string)
    ensures Ungroup(a + b) == Ungroup(a) + Ungroup(b)
    decreases |a|
  {
    if |a| == 0 {
      assert a + b == b;
    } else {
      assert (a + b)[0] == a[0];
      assert (a + b)[1..] == a[1..] + b;
      UngroupAppend(a[1..], b);
    }
  }

  lemma {:induction false} UngroupDigits(s: string)
    requires forall i :: 0 <= i < |s| ==> '0' <= s[i] <= '9'
    ensures Ungroup(s) == s
    decreases |s|
  {
    if |s| > 0 {
      UngroupDigits(s[1..]);
      assert s == [s[0]] + s[1..];
    }
  }

  /** From 1000 on, the decimal digits are those of the thousands followed
      by the last three digits. */
  lemma DecimalThousands(n: nat)
    requires n >= 1000
    ensures Decimal(n) == Decimal(n / 1000) + Pad3(n % 1000)
  {
    var q := n / 1000;
    var r := n % 1000;
    var a := r / 100;
    var r2 := r % 100;
    var b := r2 / 10;
    var c := r2 % 10;
    assert n == 10 * (100 * q + 10 * a + b) + c;
    assert n / 10 == 100 * q + 10 * a + b && n % 10 == c;
    assert (n / 10) / 10 == 10 * q + a && (n / 10) % 10 == b;
    assert ((n / 10) / 10) / 10 == q && ((n / 10) / 10) % 10 == a;
    calc {
      Decimal(n);
      Decimal(n / 10) + [Digit(c)];
      Decimal((n / 10) / 10) + [Digit(b)] + [Digit(c)];
      Decimal(q) + [Digit(a)] + [Digit(b)] + [Digit(c)];
      Decimal(q) + Pad3(r);
    }
  }

  /** Removing the separators from the grouped digits leaves the plain decimal. */
  lemma {:induction false} GroupedDigits(n: nat)
    ensures Ungroup(Grouped(n)) == Decimal(n)
    decreases n
  {
    if n < 1000 {
      UngroupDigits(Decimal(n));
    } else {
      GroupedDigits(n / 1000);
      UngroupAppend(Grouped(n / 1000) + ",", Pad3(n % 1000));
      UngroupAppend(Grouped(n / 1000), ",");
      UngroupDigits(Pad3(n % 1000));
      DecimalThousands(n);
    }
  }

  /** Reading splits a rendering at its sign, its point and its two decimals. */
  lemma ReadMoneyParts(negative: bool, g: string, p: string)
    requires |g| > 0 && g[0] != '-' && |p| == 2
    ensures ReadMoney((if negative then "-" else "") + g + "." + p)
      == Combine(negative, DecimalValue(Ungroup(g)), DecimalValue(p))
  {
    var s := (if negative then "-" else "") + g + "." + p;
    assert s[|s| - 3] == '.';
    assert s[|s| - 2..] == p;
    assert s[0] == '-' <==> negative;
    assert WholePart(s) == g;
  }

  /** A printed balance reads back as the stored balance. */
  lemma MoneyRoundTrip(c: Cents)
    ensures ReadMoney(MoneyText(c)) == Some(c)
  {
    var m := Magnitude(c);
    ReadMoneyParts(c < 0, Grouped(m / 100), Pad2(m % 100));
    GroupedDigits(m / 100);
    DecimalRoundTrip(m / 100);
    Pad2Value(m % 100);
    assert 100 * (m / 100) + m % 100 == m;
  }

  /** An example of the format's thousands separator. */
  lemma GroupedMoneyExample()
    ensures MoneyText(150050) == "1,500.50"
  {
    assert 150050 / 100 == 1500 && 150050 % 100 == 50;
    assert Pad3(500) == "500" && Pad2(50) == "50";
    assert Grouped(1500) == "1" + "," + "500";
  }

  /** An example of a negative balance below one unit. */
  lemma NegativeMoneyExample()
    ensures MoneyText(-5) == "-0.05"
  {
    assert Pad2(5) == "05";
  }

  // ---------------------------------------------------------------------
  // get_account_balance

  const BalanceLead := "Your current account balance is: $"
  const AccountMissing := "Account not found. Please verify your account number."
  const BalanceError := "Error retrieving balance: "

  /** `get_account_balance`: the stored balance in the `,.2f` format, the
      not-found line, or the store's error. A NULL balance comes back as
      `None` and so reads as a missing account. */
  function GetAccountBalance(db: Db, accountNumber: string): (s: string)
    ensures db.Offline? ==> s == BalanceError + db.error
    ensures db.Online? && !HasKey(db.tables.bankAccounts, AccountKey, accountNumber) ==> s == AccountMissing
    ensures db.Online? && HasKey(db.tables.bankAccounts, AccountKey, accountNumber) ==>
      exists a :: a in db.tables.bankAccounts && a.accountNumber == accountNumber
        && (a.balance.None? ==> s == AccountMissing)
        && (a.balance.Some? ==> s == BalanceLead + MoneyText(a.balance.value))
  {
    match AccountBalance(db, accountNumber)
    case Fault(e) => BalanceError + e
    case Ok(None) => AccountMissing
    case Ok(Some(b)) => BalanceLead + MoneyText(b)
  }

  /** A balance line is never the not-found line. */
  lemma BalanceLineIsNotMissing(c: Cents)
    ensures BalanceLead + MoneyText(c) != AccountMissing
  {
    assert (BalanceLead + MoneyText(c))[33] == BalanceLead[33] != AccountMissing[33];
  }

  /** The not-found line is never printed for an unreadable store; it is
      printed for every number the store does not know; and under the
      UNIQUE account number it is printed exactly when no account with that
      number has a balance, so also for an account whose balance is NULL. */
  lemma AccountMissingIff(db: Db, accountNumber: string)
    ensures GetAccountBalance(db, accountNumber) == AccountMissing ==> db.Online?
    ensures db.Online? && !HasKey(db.tables.bankAccounts, AccountKey, accountNumber) ==>
      GetAccountBalance(db, accountNumber) == AccountMissing
    ensures db.Online? && Valid(db.tables) ==>
      ((GetAccountBalance(db, accountNumber) == AccountMissing)
       <==> !exists a :: a in db.tables.bankAccounts && a.accountNumber == accountNumber && a.balance.Some?)
  {
    var s := GetAccountBalance(db, accountNumber);
    if db.Offline? {
      assert s[20] == BalanceError[20] != AccountMissing[20];
    } else if Valid(db.tables) {
      if b :| b in db.tables.bankAccounts && b.accountNumber == accountNumber && b.balance.Some? {
        BalanceReadsBack(db.tables, b);
        BalanceLineIsNotMissing(b.balance.value);
      }
    }
  }

  /** Under the UNIQUE account number the tool reports the account's own
      balance: a stored amount reads back from the printed line, and a NULL
      balance gives the not-found line. */
  lemma BalanceReadsBack(t: Tables, a: BankAccount)
    requires Valid(t) && a in t.bankAccounts
    ensures var s := GetAccountBalance(Online(t), a.accountNumber);
      && (a.balance.Some? ==>
            s == BalanceLead + MoneyText(a.balance.value) && ReadMoney(s[|BalanceLead|..]) == a.balance)
      && (a.balance.None? ==> s == AccountMissing)
  {
    var i :| 0 <= i < |t.bankAccounts| && t.bankAccounts[i] == a;
    UniqueLookup(t.bankAccounts, AccountKey, a.accountNumber);
    var s := GetAccountBalance(Online(t), a.accountNumber);
    if a.balance.Some? {
      assert s == BalanceLead + MoneyText(a.balance.value);
      assert s[|BalanceLead|..] == MoneyText(a.balance.value);
      MoneyRoundTrip(a.balance.value);
    }
  }

  // ---------------------------------------------------------------------
  // get_recent_transactions

  /** How many transactions the tool asks for. */
  const RecentLimit: nat := 5

  /** The line printed for each transaction; a NULL description prints as `None`. */
  function TransactionLine(x: Transaction): string {
    x.createdAt + ": " + x.transactionType + " $" + x.amount + " - " + Show(x.description)
  }

  function TransactionLines(rows: seq<Transaction>): (lines: seq<string>)
    ensures |lines| == |rows|
    ensures forall i :: 0 <= i < |rows| ==> lines[i] == TransactionLine(rows[i])
  {
    seq(|rows|, i requires 0 <= i < |rows| => TransactionLine(rows[i]))
  }

  const TransactionsHeading := "Recent transactions:\n"
  const NoTransactions := "No recent transactions found."
  const TransactionsError := "Error retrieving transactions: "

  /** `get_recent_transactions`: the account's five newest transactions (all
      of them when there are fewer), newest first, one line each under a
      heading. */
  function GetRecentTransactions(db: Db, accountNumber: string): (s: string)
    ensures db.Offline? ==> s == TransactionsError + db.error
    ensures db.Online? && !HasKey(db.tables.transactions, TransactionAccount, accountNumber) ==>
      s == NoTransactions
    ensures db.Online? && HasKey(db.tables.transactions, TransactionAccount, accountNumber) ==>
      var mine := Matching(db.tables.transactions, TransactionAccount, accountNumber);
      exists rows: seq<Transaction> ::
        && |rows| == Min(RecentLimit, |mine|) > 0
        && rows == NewestFirst(mine, TransactionStamp)[..|rows|]
        && (forall x :: x in rows ==> x in db.tables.transactions && x.accountNumber == accountNumber)
        && NewestFirstOrdered(rows, TransactionStamp)
        && s == TransactionsHeading + Join(TransactionLines(rows), "\n")
  {
    match RecentTransactionRows(db, accountNumber, RecentLimit)
    case Fault(e) => TransactionsError + e
    case Ok(rows) =>
      MatchingNonEmptyIff(db.tables.transactions, TransactionAccount, accountNumber);
      if |rows| == 0 then
        NoTransactions
      else
        TransactionsHeading + Join(TransactionLines(rows), "\n")
  }

  /** The no-transactions line is printed exactly when the store is readable
      and the account has no transaction. */
  lemma NoTransactionsIff(db: Db, accountNumber: string)
    ensures GetRecentTransactions(db, accountNumber) == NoTransactions
      <==> db.Online? && !HasKey(db.tables.transactions, TransactionAccount, accountNumber)
  {
    var s := GetRecentTransactions(db, accountNumber);
    if db.Offline? {
      assert s[0] != NoTransactions[0];
    } else if HasKey(db.tables.transactions, TransactionAccount, accountNumber) {
      assert s[0] != NoTransactions[0];
    }
  }

  /** An account with at most five transactions has every one of them listed. */
  lemma FewTransactionsAllListed(db: Db, accountNumber: string, x: Transaction)
    requires db.Online? && x in db.tables.transactions && x.accountNumber == accountNumber
    requires |Matching(db.tables.transactions, TransactionAccount, accountNumber)| <= RecentLimit
    ensures Contains(GetRecentTransactions(db, accountNumber), TransactionLine(x))
  {
    var t := db.tables;
    var matching := Matching(t.transactions, TransactionAccount, accountNumber);
    var all := NewestFirst(matching, TransactionStamp);
    var rows := RecentTransactionRows(db, accountNumber, RecentLimit).value;
    assert rows == all;
    assert multiset(t.transactions)[x] > 0;
    assert multiset(matching)[x] > 0;
    assert x in rows;
    var j :| 0 <= j < |rows| && rows[j] == x;
    assert GetRecentTransactions(db, accountNumber) == TransactionsHeading + Join(TransactionLines(rows), "\n");
    TransactionListingShowsLine(rows, j);
  }

  /** A listing shows the line of each of its rows. */
  lemma TransactionListingShowsLine(rows: seq<Transaction>, j: int)
    requires 0 <= j < |rows|
    ensures Contains(TransactionsHeading + Join(TransactionLines(rows), "\n"), TransactionLine(rows[j]))
  {
    var body := Join(TransactionLines(rows), "\n");
    var s := TransactionsHeading + body;
    JoinContainsPart(TransactionLines(rows), "\n", j);
    assert s[|TransactionsHeading|..|s|] == body;
    ContainsFromSlice(s, |TransactionsHeading|, |s|, TransactionLine(rows[j]));
  }

  // ---------------------------------------------------------------------
  // search_banking_knowledge

  /** The number of documents the tool asks for. */
  const ToolResults: nat := 2

  const BankingWording := Wording(
    "Banking information: ",
    "No relevant banking information found.",
    "Error searching banking knowledge: ")

  /** `search_banking_knowledge`: the first query's documents from the
      banking collection, two at most asked for. */
  function SearchBankingKnowledge(search: Search, query: string): (s: string)
    ensures var r := search(Banking, query, ToolResults);
      && (r.Raised? ==> s == "Error searching banking knowledge: " + r.error)
      && (!r.Raised? && !HasDocuments(r) ==> s == "No relevant banking information found.")
      && (HasDocuments(r) ==> s == "Banking information: " + Join(r.documents[0], "\n"))
  {
    SearchTool(search(Banking, query, ToolResults), BankingWording)
  }

  /** The answer opens with "Banking information: " exactly when the search
      gave documents to read. */
  lemma BankingFoundIff(search: Search, query: string)
    ensures StartsWith(SearchBankingKnowledge(search, query), BankingWording.found)
      <==> HasDocuments(search(Banking, query, ToolResults))
  {
    var w := BankingWording;
    assert w.none[20] != w.found[20];
    FoundPrefixIff(search(Banking, query, ToolResults), w);
  }

  // ---------------------------------------------------------------------
  // check_account_status

  /** The tool's statement, written as its leading keyword and the rest. */
  const AccountStatusQuery :=
    "SELECT" + " account_type, status, created_at FROM bank_accounts WHERE account_number = ?"

  /** The tool's statement is a SELECT, so `execute_query` hands back the
      fetched rows. */
  lemma AccountStatusQueryIsSelect(rows: seq<BankAccount>)
    ensures ExecuteQuery(AccountStatusQuery, rows) == Frame(rows)
  {
    SelectStatement(" account_type, status, created_at FROM bank_accounts WHERE account_number = ?");
  }

  /** The line printed for a found account. */
  function StatusReport(a: BankAccount): string {
    "Account Type: " + Show(a.accountType) + ", Status: " + Show(a.status) + ", Opened: " + a.createdAt
  }

  const StatusMissing := "Account not found."
  const StatusError := "Error checking account status: "

  /** `check_account_status`: type, status and opening time of the first
      matching account, the short not-found line, or the store's error. */
  function CheckAccountStatus(db: Db, accountNumber: string): (s: string)
    ensures db.Offline? ==> s == StatusError + db.error
    ensures db.Online? && !HasKey(db.tables.bankAccounts, AccountKey, accountNumber) ==> s == StatusMissing
    ensures db.Online? && HasKey(db.tables.bankAccounts, AccountKey, accountNumber) ==>
      exists a :: a in db.tables.bankAccounts && a.accountNumber == accountNumber && s == StatusReport(a)
  {
    match AccountRows(db, accountNumber)
    case Fault(e) => StatusError + e
    case Ok(rows) =>
      if |rows| == 0 then
        assert forall i :: 0 <= i < |db.tables.bankAccounts| ==> db.tables.bankAccounts[i] !in rows;
        StatusMissing
      else
        assert rows[0] in rows;
        StatusReport(rows[0])
  }

  /** The short not-found line is printed exactly when the store is readable
      and has no account with that number. */
  lemma StatusMissingIff(db: Db, accountNumber: string)
    ensures CheckAccountStatus(db, accountNumber) == StatusMissing
      <==> db.Online? && !HasKey(db.tables.bankAccounts, AccountKey, accountNumber)
  {
    var s := CheckAccountStatus(db, accountNumber);
    if db.Offline? {
      assert s[0] != StatusMissing[0];
    } else if HasKey(db.tables.bankAccounts, AccountKey, accountNumber) {
      assert s[8] == 'T' && StatusMissing[8] == 'n';
    }
  }

  /** The balance tool reports every account the status tool misses, with
      a different wording; under the UNIQUE account number it reports exactly
      those and the accounts whose balance is NULL. */
  lemma BalanceAndStatusAgree(db: Db, accountNumber: string)
    ensures CheckAccountStatus(db, accountNumber) == StatusMissing
      ==> GetAccountBalance(db, accountNumber) == AccountMissing
    ensures db.Online? && Valid(db.tables) ==>
      ((GetAccountBalance(db, accountNumber) == AccountMissing)
       <==> (|| CheckAccountStatus(db, accountNumber) == StatusMissing
             || exists a :: a in db.tables.bankAccounts && a.accountNumber == accountNumber && a.balance.None?))
    ensures AccountMissing != StatusMissing
  {
    AccountMissingIff(db, accountNumber);
    StatusMissingIff(db, accountNumber);
    if db.Online? && Valid(db.tables) && HasKey(db.tables.bankAccounts, AccountKey, accountNumber) {
      var i :| 0 <= i < |db.tables.bankAccounts| && AccountKey(db.tables.bankAccounts[i]) == accountNumber;
      var a := db.tables.bankAccounts[i];
      forall b | b in db.tables.bankAccounts && b.accountNumber == accountNumber
        ensures b == a
      {
        SameAccount(db.tables, a, b);
      }
    }
  }

  /** Under the UNIQUE account number, two rows with the same number are the
      same row. */
  lemma SameAccount(t: Tables, a: BankAccount, b: BankAccount)
    requires Valid(t) && a in t.bankAccounts && b in t.bankAccounts
    requires a.accountNumber == b.accountNumber
    ensures a == b
  {
    var i :| 0 <= i < |t.bankAccounts| && t.bankAccounts[i] == a;
    var j :| 0 <= j < |t.bankAccounts| && t.bankAccounts[j] == b;
    assert AccountKey(t.bankAccounts[i]) == AccountKey(t.bankAccounts[j]);
  }

  /** An account whose balance is NULL is reported missing by the balance
      tool while the status tool finds it. */
  lemma NullBalanceReportedMissing(a: BankAccount)
    requires a.balance.None?
    ensures var t := EmptyTables.(bankAccounts := [a]);
      && GetAccountBalance(Online(t), a.accountNumber) == AccountMissing
      && CheckAccountStatus(Online(t), a.accountNumber) != StatusMissing
  {
    var t := EmptyTables.(bankAccounts := [a]);
    assert AccountKey(t.bankAccounts[0]) == a.accountNumber;
    BalanceReadsBack(t, a);
    StatusMissingIff(Online(t), a.accountNumber);
  }
}
