/** The telecom crew's tools: account information, data usage, the telecom
    knowledge search and the network status. The network status is not
    measured: any line the store knows is reported as working. */
module TelecomTools {
  import opened Text
  import opened Wrappers
  import opened Settings
  import opened Relation
  import opened Store
  import opened Knowledge

  // ---------------------------------------------------------------------
  // get_telecom_account_info

  /** The line printed for a found account; the number is echoed as asked. */
  function InfoLine(phoneNumber: string, a: TelecomAccount): string {
    "Phone: " + phoneNumber + ", Plan: " + Show(a.planType) + ", Monthly Charge: $" + a.monthlyCharge
      + ", Status: " + Show(a.status)
  }

  const NotInSystem := "Phone number not found in our system."
  const InfoError := "Error retrieving account info: "

  /** `get_telecom_account_info`: the first matching line's account, the
      not-found line, or the store's error. */
  function GetTelecomAccountInfo(db: Db, phoneNumber: string): (s: string)
    ensures db.Offline? ==> s == InfoError + db.error
    ensures db.Online? && !HasKey(db.tables.telecomAccounts, LineKey, phoneNumber) ==> s == NotInSystem
    ensures db.Online? && HasKey(db.tables.telecomAccounts, LineKey, phoneNumber) ==>
      exists a :: a in db.tables.telecomAccounts && a.phoneNumber == phoneNumber && s == InfoLine(phoneNumber, a)
  {
    match LineRows(db, phoneNumber)
    case Fault(e) => InfoError + e
    case Ok(rows) =>
      if |rows| == 0 then
        assert forall i :: 0 <= i < |db.tables.telecomAccounts| ==> db.tables.telecomAccounts[i] !in rows;
        NotInSystem
      else
        assert rows[0] in rows;
        InfoLine(phoneNumber, rows[0])
  }

  /** The not-found line is printed exactly when the store is readable and
      does not know the number. */
  lemma NotInSystemIff(db: Db, phoneNumber: string)
    ensures GetTelecomAccountInfo(db, phoneNumber) == NotInSystem
      <==> db.Online? && !HasKey(db.tables.telecomAccounts, LineKey, phoneNumber)
  {
    if db.Offline? {
      assert (InfoError + db.error)[30] == InfoError[30] != NotInSystem[30];
    } else if HasKey(db.tables.telecomAccounts, LineKey, phoneNumber) {
      var a :| a in db.tables.telecomAccounts && a.phoneNumber == phoneNumber
        && GetTelecomAccountInfo(db, phoneNumber) == InfoLine(phoneNumber, a);
      InfoLineIsNotMissing(phoneNumber, a);
    }
  }

  lemma InfoLineIsNotMissing(phoneNumber: string, a: TelecomAccount)
    ensures InfoLine(phoneNumber, a) != NotInSystem
  {
    assert InfoLine(phoneNumber, a)[5] == ':' && NotInSystem[5] == ' ';
  }

  /** Under the UNIQUE phone number the tool prints the line's own account. */
  lemma InfoOfUniqueLine(t: Tables, a: TelecomAccount)
    requires Valid(t) && a in t.telecomAccounts
    ensures GetTelecomAccountInfo(Online(t), a.phoneNumber) == InfoLine(a.phoneNumber, a)
  {
    var i :| 0 <= i < |t.telecomAccounts| && t.telecomAccounts[i] == a;
    UniqueLookup(t.telecomAccounts, LineKey, a.phoneNumber);
  }

  // ---------------------------------------------------------------------
  // get_data_usage

  /** The line printed for the usage of a found line. */
  function UsageLine(u: Usage): string {
    "Current data usage: " + u.dataUsageGb + " GB this month. Monthly charge: $" + u.monthlyCharge
  }

  const UsageMissing := "Phone number not found."
  const UsageError := "Error retrieving usage data: "

  /** `get_data_usage`: usage and charge of the first matching line, the
      not-found line, or the store's error. */
  function GetDataUsage(db: Db, phoneNumber: string): (s: string)
    ensures db.Offline? ==> s == UsageError + db.error
    ensures db.Online? && !HasKey(db.tables.telecomAccounts, LineKey, phoneNumber) ==> s == UsageMissing
    ensures db.Online? && HasKey(db.tables.telecomAccounts, LineKey, phoneNumber) ==>
      exists a :: a in db.tables.telecomAccounts && a.phoneNumber == phoneNumber
        && s == UsageLine(Usage(a.dataUsageGb, a.monthlyCharge))
  {
    match UsageRows(db, phoneNumber)
    case Fault(e) => UsageError + e
    case Ok(rows) =>
      var lines := LineRows(db, phoneNumber).value;
      if |rows| == 0 then
        assert forall i :: 0 <= i < |db.tables.telecomAccounts| ==> db.tables.telecomAccounts[i] !in lines;
        UsageMissing
      else
        assert lines[0] in lines;
        UsageLine(rows[0])
  }

  /** The not-found line is printed exactly when the store is readable and
      does not know the number. */
  lemma UsageMissingIff(db: Db, phoneNumber: string)
    ensures GetDataUsage(db, phoneNumber) == UsageMissing
      <==> db.Online? && !HasKey(db.tables.telecomAccounts, LineKey, phoneNumber)
  {
    var s := GetDataUsage(db, phoneNumber);
    if db.Offline? {
      assert s[22] == UsageError[22] != UsageMissing[22];
    } else if HasKey(db.tables.telecomAccounts, LineKey, phoneNumber) {
      assert s[19] == ' ' && UsageMissing[19] == 'u';
    }
  }

  /** Under the UNIQUE phone number the tool prints that line's usage and charge. */
  lemma UsageOfUniqueLine(t: Tables, a: TelecomAccount)
    requires Valid(t) && a in t.telecomAccounts
    ensures GetDataUsage(Online(t), a.phoneNumber) == UsageLine(Usage(a.dataUsageGb, a.monthlyCharge))
  {
    var i :| 0 <= i < |t.telecomAccounts| && t.telecomAccounts[i] == a;
    UniqueLookup(t.telecomAccounts, LineKey, a.phoneNumber);
  }

  // ---------------------------------------------------------------------
  // search_telecom_knowledge

  /** The number of documents the tool asks for. */
  const ToolResults: nat := 2

  const TelecomWording := Wording(
    "Telecom information: ",
    "No relevant telecom information found.",
    "Error searching telecom knowledge: ")

  /** `search_telecom_knowledge`: the first query's documents from the
      telecom collection, two at most asked for. */
  function SearchTelecomKnowledge(search: Search, query: string): (s: string)
    ensures var r := search(Telecom, query, ToolResults);
      && (r.Raised? ==> s == "Error searching telecom knowledge: " + r.error)
      && (!r.Raised? && !HasDocuments(r) ==> s == "No relevant telecom information found.")
      && (HasDocuments(r) ==> s == "Telecom information: " + Join(r.documents[0], "\n"))
  {
    SearchTool(search(Telecom, query, ToolResults), TelecomWording)
  }

  /** The answer opens with "Telecom information: " exactly when the search
      gave documents to read. */
  lemma TelecomFoundIff(search: Search, query: string)
    ensures StartsWith(SearchTelecomKnowledge(search, query), TelecomWording.found)
      <==> HasDocuments(search(Telecom, query, ToolResults))
  {
    var w := TelecomWording;
    assert w.none[20] != w.found[20];
    FoundPrefixIff(search(Telecom, query, ToolResults), w);
  }

  // ---------------------------------------------------------------------
  // check_network_status

  /** The state every known line is reported in. */
  const Operational := "Active and operational"

  /** The report for a known line, whatever its account says. */
  function NetworkLine(phoneNumber: string): string {
    "Network status for " + phoneNumber + ": " + Operational + ". Signal strength: Strong."
  }

  const NotInNetwork := "Phone number not found in our network."
  const NetworkError := "Error checking network status: "

  /** `check_network_status`: a fixed healthy report for any known line. */
  function CheckNetworkStatus(db: Db, phoneNumber: string): (s: string)
    ensures db.Offline? ==> s == NetworkError + db.error
    ensures db.Online? && !HasKey(db.tables.telecomAccounts, LineKey, phoneNumber) ==> s == NotInNetwork
    ensures db.Online? && HasKey(db.tables.telecomAccounts, LineKey, phoneNumber) ==> s == NetworkLine(phoneNumber)
  {
    match LineRows(db, phoneNumber)
    case Fault(e) => NetworkError + e
    case Ok(rows) =>
      if |rows| == 0 then
        assert forall i :: 0 <= i < |db.tables.telecomAccounts| ==> db.tables.telecomAccounts[i] !in rows;
        NotInNetwork
      else
        assert rows[0] in rows;
        NetworkLine(phoneNumber)
  }

  /** The not-found line is printed exactly when the store is readable and
      does not know the number. */
  lemma NotInNetworkIff(db: Db, phoneNumber: string)
    ensures CheckNetworkStatus(db, phoneNumber) == NotInNetwork
      <==> db.Online? && !HasKey(db.tables.telecomAccounts, LineKey, phoneNumber)
  {
    var s := CheckNetworkStatus(db, phoneNumber);
    if db.Offline? {
      assert s[30] == NetworkError[30] != NotInNetwork[30];
    } else if HasKey(db.tables.telecomAccounts, LineKey, phoneNumber) {
      assert s[18] == ' ' && NotInNetwork[18] == 'o';
    }
  }

  /** The report depends only on whether the number is known: two readable
      stores that both know it (with any plan, charge or status) answer alike. */
  lemma NetworkIgnoresAccount(t: Tables, u: Tables, phoneNumber: string)
    requires HasKey(t.telecomAccounts, LineKey, phoneNumber) <==> HasKey(u.telecomAccounts, LineKey, phoneNumber)
    ensures CheckNetworkStatus(Online(t), phoneNumber) == CheckNetworkStatus(Online(u), phoneNumber)
  {
  }

  /** A suspended line is still reported active and operational. */
  lemma SuspendedLineReportedActive(a: TelecomAccount)
    requires a.status == Some("suspended")
    ensures var t := EmptyTables.(telecomAccounts := [a]);
      && Contains(CheckNetworkStatus(Online(t), a.phoneNumber), Operational)
      && Contains(GetTelecomAccountInfo(Online(t), a.phoneNumber), "suspended")
  {
    var t := EmptyTables.(telecomAccounts := [a]);
    assert LineKey(t.telecomAccounts[0]) == a.phoneNumber;
    ContainsInfix("Network status for " + a.phoneNumber + ": ", Operational, ". Signal strength: Strong.");
    InfoOfUniqueLine(t, a);
    var info := "Phone: " + a.phoneNumber + ", Plan: " + Show(a.planType) + ", Monthly Charge: $"
      + a.monthlyCharge + ", Status: ";
    assert Show(a.status) == "suspended";
    assert InfoLine(a.phoneNumber, a) == info + "suspended" + "";
    ContainsInfix(info, "suspended", "");
  }

  /** The three lookups by phone number agree on which numbers exist. */
  lemma LookupsAgree(db: Db, phoneNumber: string)
    ensures GetTelecomAccountInfo(db, phoneNumber) == NotInSystem
      <==> GetDataUsage(db, phoneNumber) == UsageMissing
    ensures GetDataUsage(db, phoneNumber) == UsageMissing
      <==> CheckNetworkStatus(db, phoneNumber) == NotInNetwork
  {
    NotInSystemIff(db, phoneNumber);
    UsageMissingIff(db, phoneNumber);
    NotInNetworkIff(db, phoneNumber);
  }
}
