/**
 * Portfolio upload in the browser (app/app.js): the split-based CSV parser
 * used when no CSV library is loaded, and the per-role summary with its
 * validation, the market value totals per role and each role's weight.
 *
 * Converting a market value string to a number is a parameter `parse`, where
 * None stands for a string that JavaScript's Number() turns into NaN or 0
 * (both become 0 in the summary).
 */
module PortfolioCsv {
  import opened Wrappers
  import opened Text

  const REQUIRED_COLUMNS: seq<string> := [
    "Ticker", "Name", "Rolle", "Stueck", "Einstandskurs", "Marktwert", "Waehrung",
    "Dividendenrendite", "Dividendenwachstum", "ROIC", "Payout_FCF", "NetDebt_EBITDA", "Interest_Coverage"]

  const UNKNOWN_ROLE: string := "Unbekannt"

  /** A parsed CSV line: column name to cell text. */
  type Record = map<string, string>

  // ---------------------------------------------------------------------------
  // Fallback parser
  // ---------------------------------------------------------------------------

  function TrimAll(parts: seq<string>): (r: seq<string>)
    ensures |r| == |parts|
  {
    seq(|parts|, i requires 0 <= i < |parts| => Trim(parts[i]))
  }

  /** The cell at position i, or the empty string when the line has fewer cells. */
  function ValueAt(values: seq<string>, i: nat): string {
    if i < |values| then values[i] else ""
  }

  /** The record for one line: each header mapped to the cell at its position, later duplicates winning. */
  function ZipRecord(headers: seq<string>, values: seq<string>): Record {
    if headers == [] then map[]
    else ZipRecord(headers[..|headers| - 1], values)[headers[|headers| - 1] := ValueAt(values, |headers| - 1)]
  }

  /** A record has exactly the header names as keys: surplus cells are dropped. */
  lemma {:induction false} ZipRecordKeys(headers: seq<string>, values: seq<string>)
    ensures ZipRecord(headers, values).Keys == set h | h in headers
  {
    if headers != [] {
      var prefix := headers[..|headers| - 1];
      ZipRecordKeys(prefix, values);
      assert headers == prefix + [headers[|headers| - 1]];
    }
  }

  /** No header after position i has the same name. */
  ghost predicate LastOccurrence(headers: seq<string>, i: int)
    requires 0 <= i < |headers|
  {
    forall j :: i < j < |headers| ==> headers[j] != headers[i]
  }

  /** A header's value is the cell at its (last) position, or '' when the line is too short. */
  lemma {:induction false} ZipRecordAt(headers: seq<string>, values: seq<string>, i: nat)
    requires i < |headers| && LastOccurrence(headers, i)
    ensures headers[i] in ZipRecord(headers, values) && ZipRecord(headers, values)[headers[i]] == ValueAt(values, i)
  {
    if i < |headers| - 1 {
      var prefix := headers[..|headers| - 1];
      assert prefix[i] == headers[i];
      ZipRecordAt(prefix, values, i);
    }
  }

  /** The lines of the trimmed text. */
  function Lines(text: string): (lines: seq<string>)
    ensures |lines| >= 1
  {
    Split(Trim(text), '\n')
  }

  /** The header names: the first line split on commas, each trimmed. */
  function Headers(text: string): seq<string> {
    TrimAll(Split(Lines(text)[0], ','))
  }

  /** The cells of a line: split on commas, each trimmed. */
  function Cells(line: string): seq<string> {
    TrimAll(Split(line, ','))
  }

  /** One record per line after the header line. */
  function ParseCsv(text: string): (records: seq<Record>)
    ensures |records| == |Lines(text)| - 1
  {
    var lines := Lines(text);
    var headers := Headers(text);
    seq(|lines| - 1, i requires 0 <= i < |lines| - 1 => ZipRecord(headers, Cells(lines[i + 1])))
  }

  /**
   * Every record has exactly the header names as keys, and each header's value
   * is the trimmed cell at its position in that line, or '' past its end.
   */
  lemma ParseCsvRecord(text: string, i: nat, j: nat)
    requires i < |ParseCsv(text)| && j < |Headers(text)| && LastOccurrence(Headers(text), j)
    ensures ParseCsv(text)[i].Keys == set h | h in Headers(text)
    ensures ParseCsv(text)[i][Headers(text)[j]] == ValueAt(Cells(Lines(text)[i + 1]), j)
  {
    var line := Lines(text)[i + 1];
    assert ParseCsv(text)[i] == ZipRecord(Headers(text), Cells(line));
    ZipRecordKeys(Headers(text), Cells(line));
    ZipRecordAt(Headers(text), Cells(line), j);
  }

  /** A text that is a single line after trimming (a header alone, or nothing) yields no records. */
  lemma SingleLineHasNoRecords(text: string)
    requires '\n' !in Trim(text)
    ensures ParseCsv(text) == []
  {
  }

  // ---------------------------------------------------------------------------
  // Validation
  // ---------------------------------------------------------------------------

  /** a is b with some elements left out, in b's order. */
  predicate IsSubsequence<T(==)>(a: seq<T>, b: seq<T>) {
    if a == [] then true
    else if b == [] then false
    else if a[0] == b[0] then IsSubsequence(a[1..], b[1..])
    else IsSubsequence(a, b[1..])
  }

  /** The columns of `columns` that the record lacks, in the order of `columns`. */
  function MissingFrom(columns: seq<string>, record: Record): (missing: seq<string>)
    ensures forall c :: c in missing <==> c in columns && c !in record
    ensures IsSubsequence(missing, columns)
  {
    if columns == [] then []
    else
      var rest := MissingFrom(columns[1..], record);
      assert forall c :: c in columns <==> c == columns[0] || c in columns[1..];
      if columns[0] !in record then
        assert ([columns[0]] + rest)[1..] == rest;
        [columns[0]] + rest
      else
        assert rest == [] || rest[0] != columns[0];
        rest
  }

  /** The required columns the first record lacks. */
  function MissingColumns(first: Record): (missing: seq<string>)
    ensures forall c :: c in missing <==> c in REQUIRED_COLUMNS && c !in first
    ensures IsSubsequence(missing, REQUIRED_COLUMNS)
  {
    MissingFrom(REQUIRED_COLUMNS, first)
  }

  // ---------------------------------------------------------------------------
  // Totals per role
  // ---------------------------------------------------------------------------

  /** A record's role; an empty or missing role counts as unknown. */
  function RoleOf(r: Record): (role: string)
    ensures role != ""
    ensures "Rolle" in r && r["Rolle"] != "" ==> role == r["Rolle"]
    ensures !("Rolle" in r && r["Rolle"] != "") ==> role == UNKNOWN_ROLE
  {
    if "Rolle" in r && r["Rolle"] != "" then r["Rolle"] else UNKNOWN_ROLE
  }

  /** JavaScript's s.replace(from, to) with a single-character pattern: only the first occurrence. */
  function ReplaceFirst(s: string, from: char, to: char): string {
    if s == [] then []
    else if s[0] == from then [to] + s[1..]
    else [s[0]] + ReplaceFirst(s[1..], from, to)
  }

  /** ReplaceFirst changes the first occurrence of `from`, if any, and nothing else. */
  lemma {:induction false} ReplaceFirstSpec(s: string, from: char, to: char)
    ensures |ReplaceFirst(s, from, to)| == |s|
    ensures forall i :: 0 <= i < |s| ==>
              ReplaceFirst(s, from, to)[i] == if s[i] == from && from !in s[..i] then to else s[i]
  {
    if s != [] {
      if s[0] == from {
        forall i | 1 <= i < |s| ensures from in s[..i] { assert s[..i][0] == from; }
      } else {
        ReplaceFirstSpec(s[1..], from, to);
        assert forall i :: 1 <= i < |s| ==> s[..i] == [s[0]] + s[1..][..i - 1];
      }
    }
  }

  /** Without an occurrence of `from` nothing is replaced. */
  lemma {:induction false} ReplaceFirstAbsent(s: string, from: char, to: char)
    requires from !in s
    ensures ReplaceFirst(s, from, to) == s
  {
    if s != [] {
      assert from !in s[1..];
      ReplaceFirstAbsent(s[1..], from, to);
    }
  }

  /** Only the first `from` is replaced: what follows it is kept as it is. */
  lemma {:induction false} ReplaceFirstAt(a: string, b: string, from: char, to: char)
    requires from !in a
    ensures ReplaceFirst(a + [from] + b, from, to) == a + [to] + b
  {
    if a != [] {
      ReplaceFirstAt(a[1..], b, from, to);
      assert (a + [from] + b)[1..] == a[1..] + [from] + b;
    }
  }

  /** A record's market value with its first comma read as a decimal point; 0 when it does not parse. */
  function MarketValue(r: Record, parse: string -> Option<real>): real {
    var text := if "Marktwert" in r then r["Marktwert"] else "undefined";
    parse(ReplaceFirst(text, ',', '.')).GetOr(0.0)
  }

  /**
   * A missing market value is the text "undefined"; a value without a comma
   * is parsed as it is; one that does not parse counts as 0.
   */
  lemma MarketValueSpec(r: Record, parse: string -> Option<real>)
    ensures "Marktwert" !in r ==> MarketValue(r, parse) == parse("undefined").GetOr(0.0)
    ensures "Marktwert" in r && ',' !in r["Marktwert"] ==> MarketValue(r, parse) == parse(r["Marktwert"]).GetOr(0.0)
    ensures var text := if "Marktwert" in r then r["Marktwert"] else "undefined";
            parse(ReplaceFirst(text, ',', '.')).None? ==> MarketValue(r, parse) == 0.0
  {
    var text := if "Marktwert" in r then r["Marktwert"] else "undefined";
    if ',' !in text {
      ReplaceFirstAbsent(text, ',', '.');
    }
  }

  /** A German decimal comma: "12,5" is read as "12.5"; only the first comma is changed. */
  lemma MarketValueDecimalComma(r: Record, parse: string -> Option<real>, whole: string, fraction: string)
    requires "Marktwert" in r && r["Marktwert"] == whole + [','] + fraction && ',' !in whole
    ensures MarketValue(r, parse) == parse(whole + ['.'] + fraction).GetOr(0.0)
  {
    ReplaceFirstAt(whole, fraction, ',', '.');
  }

  /** The sum of all records' market values. */
  function SumValues(records: seq<Record>, parse: string -> Option<real>): real {
    if records == [] then 0.0
    else SumValues(records[..|records| - 1], parse) + MarketValue(records[|records| - 1], parse)
  }

  /** The sum of the market values of the records with the given role. */
  function RoleTotal(records: seq<Record>, role: string, parse: string -> Option<real>): real {
    if records == [] then 0.0
    else
      var last := records[|records| - 1];
      RoleTotal(records[..|records| - 1], role, parse) + (if RoleOf(last) == role then MarketValue(last, parse) else 0.0)
  }

  /** The roles that occur in the records. */
  ghost function RolesOf(records: seq<Record>): set<string> {
    if records == [] then {} else RolesOf(records[..|records| - 1]) + {RoleOf(records[|records| - 1])}
  }

  predicate Distinct(s: seq<string>) {
    forall i, j :: 0 <= i < j < |s| ==> s[i] != s[j]
  }

  /** The roles of the records, each once, in the order in which they first occur. */
  ghost function FirstOccurrence(records: seq<Record>): seq<string> {
    if records == [] then []
    else
      var seen := FirstOccurrence(records[..|records| - 1]);
      var role := RoleOf(records[|records| - 1]);
      if role in seen then seen else seen + [role]
  }

  /** The first-occurrence order lists every role that occurs, and each only once. */
  lemma {:induction false} FirstOccurrenceRoles(records: seq<Record>)
    ensures Distinct(FirstOccurrence(records))
    ensures forall r :: r in FirstOccurrence(records) <==> r in RolesOf(records)
  {
    if records != [] {
      var seen := FirstOccurrence(records[..|records| - 1]);
      FirstOccurrenceRoles(records[..|records| - 1]);
      var role := RoleOf(records[|records| - 1]);
      if role !in seen {
        var extended := seen + [role];
        assert forall k :: 0 <= k < |seen| ==> extended[k] == seen[k];
      }
    }
  }

  /** The sum of the totals of the listed roles. */
  function SumOver(roles: seq<string>, totals: map<string, real>): real
    requires forall r :: r in roles ==> r in totals
  {
    if roles == [] then 0.0
    else SumOver(roles[..|roles| - 1], totals) + totals[roles[|roles| - 1]]
  }

  /** The sum only reads the totals of the listed roles. */
  lemma {:induction false} SumOverFrame(roles: seq<string>, t1: map<string, real>, t2: map<string, real>)
    requires forall r :: r in roles ==> r in t1 && r in t2 && t1[r] == t2[r]
    ensures SumOver(roles, t1) == SumOver(roles, t2)
  {
    if roles != [] {
      SumOverFrame(roles[..|roles| - 1], t1, t2);
    }
  }

  /** Adding v to one listed role's total adds v to the sum. */
  lemma {:induction false} SumOverAdd(roles: seq<string>, totals: map<string, real>, role: string, v: real)
    requires Distinct(roles) && role in roles && forall r :: r in roles ==> r in totals
    ensures SumOver(roles, totals[role := totals[role] + v]) == SumOver(roles, totals) + v
  {
    var prefix := roles[..|roles| - 1];
    var last := roles[|roles| - 1];
    var updated := totals[role := totals[role] + v];
    if last == role {
      assert role !in prefix;
      SumOverFrame(prefix, totals, updated);
    } else {
      assert role in prefix;
      SumOverAdd(prefix, totals, role, v);
    }
  }

  /** Appending a new role with total v adds v to the sum. */
  lemma SumOverAppend(roles: seq<string>, totals: map<string, real>, role: string, v: real)
    requires role !in roles && forall r :: r in roles ==> r in totals
    ensures SumOver(roles + [role], totals[role := v]) == SumOver(roles, totals) + v
  {
    var extended := roles + [role];
    assert extended[..|extended| - 1] == roles;
    SumOverFrame(roles, totals, totals[role := v]);
  }

  /** Extending the prefix by one record adds that record's role and market value. */
  lemma PrefixStep(records: seq<Record>, i: nat, parse: string -> Option<real>)
    requires i < |records|
    ensures RolesOf(records[..i + 1]) == RolesOf(records[..i]) + {RoleOf(records[i])}
    ensures SumValues(records[..i + 1], parse) == SumValues(records[..i], parse) + MarketValue(records[i], parse)
  {
    assert records[..i + 1][..i] == records[..i];
  }

  /**
   * Extending the prefix by one record appends its role to the order if the
   * role is new there; `seen` is keyed by the roles of the order.
   */
  lemma FirstOccurrenceStep<T>(records: seq<Record>, i: nat, seen: map<string, T>)
    requires i < |records|
    requires forall r :: r in FirstOccurrence(records[..i]) <==> r in seen
    ensures FirstOccurrence(records[..i + 1])
            == if RoleOf(records[i]) in seen then FirstOccurrence(records[..i])
               else FirstOccurrence(records[..i]) + [RoleOf(records[i])]
  {
    assert records[..i + 1][..i] == records[..i];
  }

  /** A role that no record has totals 0. */
  lemma {:induction false} RoleTotalAbsent(records: seq<Record>, role: string, parse: string -> Option<real>)
    requires role !in RolesOf(records)
    ensures RoleTotal(records, role, parse) == 0.0
  {
    if records != [] {
      RoleTotalAbsent(records[..|records| - 1], role, parse);
    }
  }

  /** Extending the prefix by one record adds its market value to its own role's total only. */
  lemma RoleTotalStep(records: seq<Record>, i: nat, role: string, parse: string -> Option<real>)
    requires i < |records|
    ensures RoleTotal(records[..i + 1], role, parse)
            == RoleTotal(records[..i], role, parse) + (if RoleOf(records[i]) == role then MarketValue(records[i], parse) else 0.0)
  {
    assert records[..i + 1][..i] == records[..i];
  }

  /** roles and totals hold the per-role totals of the records in prefix, roles in first-occurrence order. */
  ghost predicate Tallied(prefix: seq<Record>, roles: seq<string>, totals: map<string, real>, parse: string -> Option<real>) {
    && totals.Keys == RolesOf(prefix)
    && (forall role :: role in totals ==> totals[role] == RoleTotal(prefix, role, parse))
    && Distinct(roles)
    && (forall r :: r in roles <==> r in totals)
    && roles == FirstOccurrence(prefix)
    && SumOver(roles, totals) == SumValues(prefix, parse)
  }

  /** After a record of a role already seen, every total is that role's total over the longer prefix. */
  lemma SeenRoleTotals(records: seq<Record>, i: nat, totals: map<string, real>, parse: string -> Option<real>)
    requires i < |records| && RoleOf(records[i]) in totals
    requires forall role :: role in totals ==> totals[role] == RoleTotal(records[..i], role, parse)
    ensures var role := RoleOf(records[i]);
            var updated := totals[role := totals[role] + MarketValue(records[i], parse)];
            forall r :: r in updated ==> updated[r] == RoleTotal(records[..i + 1], r, parse)
  {
    var role := RoleOf(records[i]);
    var updated := totals[role := totals[role] + MarketValue(records[i], parse)];
    forall r | r in updated ensures updated[r] == RoleTotal(records[..i + 1], r, parse) {
      RoleTotalStep(records, i, r, parse);
    }
  }

  /** After a record of a role already seen, the listed totals still sum to all market values. */
  lemma SeenRoleSum(records: seq<Record>, i: nat, roles: seq<string>, totals: map<string, real>, parse: string -> Option<real>)
    requires i < |records| && Distinct(roles) && RoleOf(records[i]) in roles
    requires forall r :: r in roles ==> r in totals
    requires SumOver(roles, totals) == SumValues(records[..i], parse)
    ensures var role := RoleOf(records[i]);
            SumOver(roles, totals[role := totals[role] + MarketValue(records[i], parse)]) == SumValues(records[..i + 1], parse)
  {
    PrefixStep(records, i, parse);
    SumOverAdd(roles, totals, RoleOf(records[i]), MarketValue(records[i], parse));
  }

  /** Adding a record of a role already seen adds its market value to that role's total. */
  lemma TallySeen(records: seq<Record>, i: nat, roles: seq<string>, totals: map<string, real>, parse: string -> Option<real>)
    requires i < |records| && Tallied(records[..i], roles, totals, parse)
    requires RoleOf(records[i]) in totals
    ensures Tallied(records[..i + 1], roles,
                    totals[RoleOf(records[i]) := totals[RoleOf(records[i])] + MarketValue(records[i], parse)], parse)
  {
    PrefixStep(records, i, parse);
    FirstOccurrenceStep(records, i, totals);
    SeenRoleSum(records, i, roles, totals, parse);
    SeenRoleTotals(records, i, totals, parse);
  }


  /** After a record of a new role, every total, the new one included, is that role's total over the longer prefix. */
  lemma NewRoleTotals(records: seq<Record>, i: nat, totals: map<string, real>, parse: string -> Option<real>)
    requires i < |records| && totals.Keys == RolesOf(records[..i]) && RoleOf(records[i]) !in totals
    requires forall role :: role in totals ==> totals[role] == RoleTotal(records[..i], role, parse)
    ensures var updated := totals[RoleOf(records[i]) := MarketValue(records[i], parse)];
            forall r :: r in updated ==> updated[r] == RoleTotal(records[..i + 1], r, parse)
  {
    var updated := totals[RoleOf(records[i]) := MarketValue(records[i], parse)];
    forall r | r in updated ensures updated[r] == RoleTotal(records[..i + 1], r, parse) {
      RoleTotalStep(records, i, r, parse);
      if r == RoleOf(records[i]) {
        RoleTotalAbsent(records[..i], r, parse);
      }
    }
  }

  /** Appending a role that is new keeps the roles distinct and in step with the keys of the totals. */
  lemma NewRoleKeys(roles: seq<string>, totals: map<string, real>, role: string, v: real)
    requires Distinct(roles) && (forall r :: r in roles <==> r in totals) && role !in totals
    ensures Distinct(roles + [role]) && forall r :: r in roles + [role] <==> r in totals[role := v]
  {
    var extended := roles + [role];
    assert forall k :: 0 <= k < |roles| ==> extended[k] == roles[k];
  }

  /** Adding a record of a new role appends the role with its market value as total. */
  lemma TallyNew(records: seq<Record>, i: nat, roles: seq<string>, totals: map<string, real>, parse: string -> Option<real>)
    requires i < |records| && Tallied(records[..i], roles, totals, parse)
    requires RoleOf(records[i]) !in totals
    ensures Tallied(records[..i + 1], roles + [RoleOf(records[i])],
                    totals[RoleOf(records[i]) := MarketValue(records[i], parse)], parse)
  {
    NewRoleKeys(roles, totals, RoleOf(records[i]), MarketValue(records[i], parse));
    PrefixStep(records, i, parse);
    FirstOccurrenceStep(records, i, totals);
    SumOverAppend(roles, totals, RoleOf(records[i]), MarketValue(records[i], parse));
    NewRoleTotals(records, i, totals, parse);
  }

  /** Before any record, no role is listed and nothing is totalled. */
  lemma TalliedEmpty(records: seq<Record>, parse: string -> Option<real>)
    ensures Tallied(records[..0], [], map[], parse)
  {
    assert records[..0] == [];
  }

  /** A tally of all the records gives each role's total, in first-occurrence order. */
  lemma TalliedAll(records: seq<Record>, roles: seq<string>, totals: map<string, real>, parse: string -> Option<real>)
    requires Tallied(records, roles, totals, parse)
    ensures totals.Keys == RolesOf(records)
    ensures forall role :: role in totals ==> totals[role] == RoleTotal(records, role, parse)
    ensures Distinct(roles) && forall r :: r in roles <==> r in totals
    ensures roles == FirstOccurrence(records)
    ensures SumOver(roles, totals) == SumValues(records, parse)
  {
  }

  /**
   * One step of the per-role reduction: adds the i-th record's market value
   * to its role's total, listing the role first if it is new.
   */
  method AddRecord(records: seq<Record>, i: nat, roles: seq<string>, totals: map<string, real>, parse: string -> Option<real>)
    returns (roles': seq<string>, totals': map<string, real>)
    requires i < |records| && Tallied(records[..i], roles, totals, parse)
    ensures Tallied(records[..i + 1], roles', totals', parse)
  {
    var role := RoleOf(records[i]);
    var marketValue := MarketValue(records[i], parse);
    if role in totals {
      TallySeen(records, i, roles, totals, parse);
      roles', totals' := roles, totals[role := totals[role] + marketValue];
    } else {
      TallyNew(records, i, roles, totals, parse);
      roles', totals' := roles + [role], totals[role := marketValue];
    }
  }

  /**
   * Totals the market values per role in one pass over the records, keeping
   * the roles in the order they first occur.
   */
  method TotalsByRole(records: seq<Record>, parse: string -> Option<real>)
    returns (roles: seq<string>, totals: map<string, real>)
    ensures totals.Keys == RolesOf(records)
    ensures forall role :: role in totals ==> totals[role] == RoleTotal(records, role, parse)
    ensures Distinct(roles) && forall r :: r in roles <==> r in totals
    ensures roles == FirstOccurrence(records)
    ensures SumOver(roles, totals) == SumValues(records, parse)
  {
    roles, totals := [], map[];
    var i := 0;
    TalliedEmpty(records, parse);
    while i < |records|
      invariant 0 <= i <= |records|
      invariant Tallied(records[..i], roles, totals, parse)
    {
      roles, totals := AddRecord(records, i, roles, totals, parse);
      i := i + 1;
    }
    assert records[..i] == records;
    TalliedAll(records, roles, totals, parse);
  }

  // ---------------------------------------------------------------------------
  // Summary
  // ---------------------------------------------------------------------------

  /** A role's share of the total in percent, or 0 when the total is 0. */
  function Weight(roleTotal: real, total: real): real {
    if total != 0.0 then roleTotal / total * 100.0 else 0.0
  }

  /** The weight is 0 for a zero total, otherwise the percentage the role total is of the total. */
  lemma WeightSpec(roleTotal: real, total: real)
    ensures total == 0.0 ==> Weight(roleTotal, total) == 0.0
    ensures total != 0.0 ==> Weight(roleTotal, total) * total == roleTotal * 100.0
    ensures 0.0 <= roleTotal <= total ==> 0.0 <= Weight(roleTotal, total) <= 100.0
  {
    if total != 0.0 {
      var q := roleTotal / total;
      assert q * total == roleTotal;
      if 0.0 <= roleTotal <= total {
        assert 0.0 <= q <= 1.0;
      }
    }
  }

  datatype RoleRow = RoleRow(role: string, marketValue: real, weight: real)

  /** What the summary shows: no data, the missing columns, or one row per role. */
  datatype Summary = NoData | ColumnsMissing(columns: seq<string>) | Table(rows: seq<RoleRow>)

  /** One row per listed role, in order, with its total and its weight. */
  function Rows(roles: seq<string>, totals: map<string, real>, total: real): (rows: seq<RoleRow>)
    requires forall r :: r in roles ==> r in totals
    ensures |rows| == |roles|
    ensures forall i :: 0 <= i < |roles| ==>
              rows[i] == RoleRow(roles[i], totals[roles[i]], Weight(totals[roles[i]], total))
  {
    seq(|roles|, i requires 0 <= i < |roles| => RoleRow(roles[i], totals[roles[i]], Weight(totals[roles[i]], total)))
  }

  function SumMarketValues(rows: seq<RoleRow>): real {
    if rows == [] then 0.0 else SumMarketValues(rows[..|rows| - 1]) + rows[|rows| - 1].marketValue
  }

  function SumWeights(rows: seq<RoleRow>): real {
    if rows == [] then 0.0 else SumWeights(rows[..|rows| - 1]) + rows[|rows| - 1].weight
  }

  /** Shares of a common total add up like the parts. */
  lemma ShareAdd(x: real, y: real, total: real)
    requires total != 0.0
    ensures x / total * 100.0 + y / total * 100.0 == (x + y) / total * 100.0
  {
  }

  /** The rows' weights add up to the sum of the totals' share of the total, in percent. */
  lemma {:induction false} RowWeights(roles: seq<string>, totals: map<string, real>, total: real)
    requires forall r :: r in roles ==> r in totals
    requires total != 0.0
    ensures SumWeights(Rows(roles, totals, total)) == SumOver(roles, totals) / total * 100.0
  {
    if roles != [] {
      var prefix := roles[..|roles| - 1];
      var rows := Rows(roles, totals, total);
      assert rows[..|rows| - 1] == Rows(prefix, totals, total);
      RowWeights(prefix, totals, total);
      ShareAdd(SumOver(prefix, totals), totals[roles[|roles| - 1]], total);
    }
  }

  /** The rows' market values add up to the sum of the totals, whatever the total. */
  lemma {:induction false} RowMarketValues(roles: seq<string>, totals: map<string, real>, total: real)
    requires forall r :: r in roles ==> r in totals
    ensures SumMarketValues(Rows(roles, totals, total)) == SumOver(roles, totals)
  {
    if roles != [] {
      var rows := Rows(roles, totals, total);
      assert rows[..|rows| - 1] == Rows(roles[..|roles| - 1], totals, total);
      RowMarketValues(roles[..|roles| - 1], totals, total);
    }
  }

  /**
   * rows summarise the records per role: one row for each role that occurs
   * and for no other, in the order in which the roles first occur, each with that role's total and its share of the sum of
   * all market values; the totals add up to that sum, and the weights to 100
   * unless the sum is 0.
   */
  ghost predicate IsRoleTable(rows: seq<RoleRow>, records: seq<Record>, parse: string -> Option<real>) {
    && (forall i :: 0 <= i < |rows| ==>
          && rows[i].role in RolesOf(records)
          && rows[i].marketValue == RoleTotal(records, rows[i].role, parse)
          && rows[i].weight == Weight(rows[i].marketValue, SumValues(records, parse)))
    && (forall role :: role in RolesOf(records) ==> exists i :: 0 <= i < |rows| && rows[i].role == role)
    && (forall i, j :: 0 <= i < j < |rows| ==> rows[i].role != rows[j].role)
    && |rows| == |FirstOccurrence(records)|
    && (forall i :: 0 <= i < |rows| ==> rows[i].role == FirstOccurrence(records)[i])
    && SumMarketValues(rows) == SumValues(records, parse)
    && (SumValues(records, parse) != 0.0 ==> SumWeights(rows) == 100.0)
  }

  /** When the totals do not sum to 0, the weights of the rows sum to 100. */
  lemma WeightsSumToHundred(roles: seq<string>, totals: map<string, real>)
    requires forall r :: r in roles ==> r in totals
    requires SumOver(roles, totals) != 0.0
    ensures SumWeights(Rows(roles, totals, SumOver(roles, totals))) == 100.0
  {
    var total := SumOver(roles, totals);
    RowWeights(roles, totals, total);
    assert total / total == 1.0;
  }

  /** One row per listed role and for no other, each carrying its role's total and weight. */
  lemma RowsCoverRoles(records: seq<Record>, roles: seq<string>, totals: map<string, real>,
                                          parse: string -> Option<real>, total: real)
    requires totals.Keys == RolesOf(records)
    requires forall role :: role in totals ==> totals[role] == RoleTotal(records, role, parse)
    requires Distinct(roles) && forall r :: r in roles <==> r in totals
    requires roles == FirstOccurrence(records)
    ensures var rows := Rows(roles, totals, total);
            && (forall i :: 0 <= i < |rows| ==>
                  && rows[i].role in RolesOf(records)
                  && rows[i].marketValue == RoleTotal(records, rows[i].role, parse)
                  && rows[i].weight == Weight(rows[i].marketValue, total))
            && (forall role :: role in RolesOf(records) ==> exists i :: 0 <= i < |rows| && rows[i].role == role)
            && (forall i, j :: 0 <= i < j < |rows| ==> rows[i].role != rows[j].role)
            && |rows| == |FirstOccurrence(records)|
            && (forall i :: 0 <= i < |rows| ==> rows[i].role == FirstOccurrence(records)[i])
  {
    var rows := Rows(roles, totals, total);
    forall role | role in RolesOf(records) ensures exists i :: 0 <= i < |rows| && rows[i].role == role {
      var i :| 0 <= i < |roles| && roles[i] == role;
      assert rows[i].role == role;
    }
  }

  /** The rows built from complete per-role totals form the role table of the records. */
  lemma RowsFormRoleTable(records: seq<Record>, roles: seq<string>, totals: map<string, real>, parse: string -> Option<real>)
    requires totals.Keys == RolesOf(records)
    requires forall role :: role in totals ==> totals[role] == RoleTotal(records, role, parse)
    requires Distinct(roles) && forall r :: r in roles <==> r in totals
    requires roles == FirstOccurrence(records)
    requires SumOver(roles, totals) == SumValues(records, parse)
    ensures IsRoleTable(Rows(roles, totals, SumOver(roles, totals)), records, parse)
  {
    var total := SumOver(roles, totals);
    RowsCoverRoles(records, roles, totals, parse, total);
    RowMarketValues(roles, totals, total);
    if total != 0.0 {
      WeightsSumToHundred(roles, totals);
    }
  }

  /**
   * Validates the records and summarises them per role: no records gives the
   * no-data message, missing required columns in the first record give the
   * list of them, otherwise one row per role with its total and weight.
   */
  method RenderSummary(records: seq<Record>, parse: string -> Option<real>) returns (s: Summary)
    ensures records == [] <==> s == NoData
    ensures records != [] && MissingColumns(records[0]) != [] ==> s == ColumnsMissing(MissingColumns(records[0]))
    ensures records != [] && MissingColumns(records[0]) == [] ==> s.Table? && IsRoleTable(s.rows, records, parse)
  {
    if |records| == 0 {
      return NoData;
    }
    var missing := MissingColumns(records[0]);
    if |missing| > 0 {
      return ColumnsMissing(missing);
    }
    var roles, totals := TotalsByRole(records, parse);
    var total := SumOver(roles, totals);
    RowsFormRoleTable(records, roles, totals, parse);
    s := Table(Rows(roles, totals, total));
  }
}
