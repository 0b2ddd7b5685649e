/** The runtime versions the viewer can load, and the lookup from a version string. */
module SpineVersions {
  import opened Wrappers
  import opened Exceptions

  datatype SpineVersion = Spine38 | Spine41

  /** The enum's members in declaration order, as reflection lists its public static fields. */
  const Declared: seq<SpineVersion> := [Spine38, Spine41]

  /** The EnumMember value each member carries. */
  function EnumMemberValue(v: SpineVersion): string {
    match v
    case Spine38 => "3.8"
    case Spine41 => "4.1"
  }

  /** The version strings the view model offers, in declaration order. */
  function VersionNames(): (names: seq<string>)
    ensures |names| == |Declared| && forall i :: 0 <= i < |Declared| ==> names[i] == EnumMemberValue(Declared[i])
  {
    seq(|Declared|, i requires 0 <= i < |Declared| => EnumMemberValue(Declared[i]))
  }

  /** FirstOrDefault over the members: the first whose EnumMember value equals `version`. */
  function FirstWithValue(members: seq<SpineVersion>, version: Option<string>): (r: Option<SpineVersion>)
    ensures r.Some? ==> r.value in members && version == Some(EnumMemberValue(r.value))
    ensures r.None? <==> forall m :: m in members ==> version != Some(EnumMemberValue(m))
    decreases |members|
  {
    if |members| == 0 then None
    else if version == Some(EnumMemberValue(members[0])) then Some(members[0])
    else FirstWithValue(members[1..], version)
  }

  /** The member at j is found when no earlier member carries the value. */
  lemma {:induction false} FirstWithValueIsFirst(members: seq<SpineVersion>, version: Option<string>, j: nat)
    requires j < |members| && version == Some(EnumMemberValue(members[j]))
    requires forall i :: 0 <= i < j ==> version != Some(EnumMemberValue(members[i]))
    ensures FirstWithValue(members, version) == Some(members[j])
    decreases |members|
  {
    if j > 0 {
      assert forall i :: 0 <= i < j - 1 ==> members[1..][i] == members[i + 1];
      FirstWithValueIsFirst(members[1..], version, j - 1);
    }
  }

  /**
   * GetSpineVersion: the member whose EnumMember value is `version`. When none matches (or the
   * selection is null) the lookup dereferences the null FirstOrDefault result.
   */
  function GetSpineVersion(version: Option<string>): (r: Result<SpineVersion, Error>)
    ensures r.Success? <==> version.Some? && version.value in VersionNames()
    ensures r.Success? ==> EnumMemberValue(r.value) == version.value
    ensures r.Failure? ==> r.error == NullReference
  {
    var names := VersionNames();
    assert forall m :: m in Declared ==> EnumMemberValue(m) in names by {
      assert Declared[0] == Spine38 && Declared[1] == Spine41;
    }
    match FirstWithValue(Declared, version)
    case None => Failure(NullReference)
    case Some(v) => Success(v)
  }

  /** Every offered string looks up the member it came from. */
  lemma GetSpineVersionInvertsValue(v: SpineVersion)
    ensures EnumMemberValue(v) in VersionNames()
    ensures GetSpineVersion(Some(EnumMemberValue(v))) == Success(v)
  {
    assert VersionNames()[0] == "3.8" && VersionNames()[1] == "4.1";
  }

  /** The list holds "3.8" then "4.1". */
  lemma VersionNamesInOrder()
    ensures VersionNames() == ["3.8", "4.1"]
  {
    assert VersionNames()[0] == "3.8" && VersionNames()[1] == "4.1";
  }
}
