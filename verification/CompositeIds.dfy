/** The external id of a junction row: its parts joined by double colons, and when they can be read back. */
module CompositeIds {
  import opened Options
  import opened Delimited

  const COLONS := Delimiter(':', ':')

  datatype Parsed = Parsed(left: string, right: string, role: Option<string>)

  function Parts(p: Parsed): seq<string> {
    [p.left, p.right] + (if p.role.Some? then [p.role.value] else [])
  }

  function BuildCompositeExternalId(p: Parsed): string {
    if p.role.Some? then p.left + "::" + p.right + "::" + p.role.value else p.left + "::" + p.right
  }

  function ParseCompositeExternalId(externalId: string, withRole: bool): Option<Parsed> {
    var parts := Split(externalId, COLONS);
    var expected := if withRole then 3 else 2;
    if |parts| != expected || exists k :: 0 <= k < |parts| && parts[k] == "" then None
    else Some(Parsed(parts[0], parts[1], if withRole then Some(parts[2]) else None))
  }

  predicate NonEmpty(p: Parsed) {
    p.left != "" && p.right != "" && (p.role.Some? ==> p.role.value != "")
  }

  lemma BuildIsJoin(p: Parsed)
    ensures BuildCompositeExternalId(p) == Join(Parts(p), COLONS)
  {
    assert Text(COLONS) == "::";
    if p.role.Some? {
      assert Parts(p)[1..] == [p.right, p.role.value] && Parts(p)[1..][1..] == [p.role.value];
      assert Join([p.role.value], COLONS) == p.role.value;
      assert Join([p.right, p.role.value], COLONS) == p.right + "::" + p.role.value;
      assert p.left + "::" + (p.right + "::" + p.role.value) == p.left + "::" + p.right + "::" + p.role.value;
    } else {
      assert Parts(p) == [p.left, p.right] && Parts(p)[1..] == [p.right];
    }
  }

  lemma ParsesItsParts(externalId: string, p: Parsed)
    requires NonEmpty(p) && Split(externalId, COLONS) == Parts(p)
    ensures ParseCompositeExternalId(externalId, p.role.Some?) == Some(p)
  {
  }

  lemma ParsedFromParts(externalId: string, p: Parsed)
    requires ParseCompositeExternalId(externalId, p.role.Some?) == Some(p)
    ensures NonEmpty(p) && Split(externalId, COLONS) == Parts(p)
  {
    var parts := Split(externalId, COLONS);
    assert parts[0] == p.left && parts[1] == p.right;
  }

  /** Reading back what was built gives the parts exactly when all are non-empty, free of the
      delimiter, and only the last may end in a colon. */
  lemma ParseAfterBuildExactly(p: Parsed)
    ensures ParseCompositeExternalId(BuildCompositeExternalId(p), p.role.Some?) == Some(p) <==>
      NonEmpty(p) && Clean(Parts(p), COLONS)
  {
    BuildIsJoin(p);
    RoundTripExactly(Parts(p), COLONS);
    if NonEmpty(p) && Clean(Parts(p), COLONS) { ParsesItsParts(BuildCompositeExternalId(p), p); }
    if ParseCompositeExternalId(BuildCompositeExternalId(p), p.role.Some?) == Some(p) {
      ParsedFromParts(BuildCompositeExternalId(p), p);
    }
  }

  /** Whatever parses was built from its parts. */
  lemma BuildAfterParse(externalId: string, withRole: bool)
    requires ParseCompositeExternalId(externalId, withRole).Some?
    ensures var p := ParseCompositeExternalId(externalId, withRole).value;
      BuildCompositeExternalId(p) == externalId && p.role.Some? == withRole && NonEmpty(p)
  {
    var p := ParseCompositeExternalId(externalId, withRole).value;
    var parts := Split(externalId, COLONS);
    assert parts == Parts(p);
    BuildIsJoin(p);
    JoinSplit(externalId, COLONS);
  }

  /** An id reads as these parts: joined by double colons they are the id, none is empty, none holds a double
      colon, and only the last may end in a colon. */
  ghost predicate Reads(externalId: string, withRole: bool, p: Parsed) {
    && p.left != "" && p.right != "" && p.role.Some? == withRole && (withRole ==> p.role.value != "")
    && externalId == (if withRole then p.left + "::" + p.right + "::" + p.role.value else p.left + "::" + p.right)
    && Leads(p.left, COLONS) && (if withRole then Leads(p.right, COLONS) else Free(p.right, COLONS))
    && (withRole ==> Free(p.role.value, COLONS))
  }

  lemma CleanMeans(p: Parsed)
    ensures Clean(Parts(p), COLONS) <==>
      if p.role.Some? then Leads(p.left, COLONS) && Leads(p.right, COLONS) && Free(p.role.value, COLONS)
      else Leads(p.left, COLONS) && Free(p.right, COLONS)
  {
    var parts := Parts(p);
    assert parts[0] == p.left && parts[1] == p.right && (p.role.Some? ==> parts[2] == p.role.value);
  }

  lemma ParsesExactly(externalId: string, withRole: bool, p: Parsed)
    ensures ParseCompositeExternalId(externalId, withRole) == Some(p) <==> Reads(externalId, withRole, p)
  {
    ParseAfterBuildExactly(p);
    CleanMeans(p);
    if ParseCompositeExternalId(externalId, withRole) == Some(p) { BuildAfterParse(externalId, withRole); }
  }
}
