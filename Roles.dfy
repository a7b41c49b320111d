/** The static routing table of app.py: a detected label (its class name), lower-cased, names the
    role whose users receive the alert. */
module Roles {
  import opened Wrappers

  /** The responsible roles that occur in the table. */
  datatype Role = FireDepartment | LawEnforcement | MedicalServices | RoadMaintenance

  /** The value stored in the `role` column of the users table. */
  function RoleName(r: Role): string {
    match r
    case FireDepartment => "fire_department"
    case LawEnforcement => "law_enforcement"
    case MedicalServices => "medical_services"
    case RoadMaintenance => "road_maintenance"
  }

  /** Distinct roles are stored under distinct names, so the users query of one
      role never returns the users of another. */
  lemma RoleNamesDistinct(a: Role, b: Role)
    ensures RoleName(a) == RoleName(b) <==> a == b
  {
  }

  /** `role_mapping`, keyed by lower-case name. */
  const RoleTable: map<string, Role> :=
    map["fire" := FireDepartment,
        "smoke" := FireDepartment,
        "gun" := LawEnforcement,
        "accident" := MedicalServices,
        "pothole" := RoadMaintenance]

  function LowerChar(c: char): char {
    if 'A' <= c <= 'Z' then (c as int + 32) as char else c
  }

  /** `str.lower()` restricted to ASCII letters. */
  function ToLower(s: string): (r: string)
    ensures |r| == |s|
    ensures forall i :: 0 <= i < |s| ==> r[i] == LowerChar(s[i])
    ensures forall i :: 0 <= i < |s| ==> !('A' <= r[i] <= 'Z')
  {
    if s == [] then [] else [LowerChar(s[0])] + ToLower(s[1..])
  }

  /** `role_mapping.get(label.lower())`: None for a name outside the table. */
  function RoleOf(name: string): Option<Role> {
    var key := ToLower(name);
    if key in RoleTable then Some(RoleTable[key]) else None
  }

  lemma {:induction false} ToLowerIdempotent(s: string)
    ensures ToLower(ToLower(s)) == ToLower(s)
  {
  }

  /** Routing ignores the case of the name. */
  lemma RoleIgnoresCase(name: string)
    ensures RoleOf(name) == RoleOf(ToLower(name))
  {
    ToLowerIdempotent(name);
  }

  /** Exactly the five table labels (in any letter case) have a role. */
  lemma {:induction false} KnownLabels(name: string)
    ensures RoleOf(name).Some? <==> ToLower(name) in {"fire", "smoke", "gun", "accident", "pothole"}
    ensures ToLower(name) in {"fire", "smoke"} ==> RoleOf(name) == Some(FireDepartment)
    ensures ToLower(name) == "gun" ==> RoleOf(name) == Some(LawEnforcement)
    ensures ToLower(name) == "accident" ==> RoleOf(name) == Some(MedicalServices)
    ensures ToLower(name) == "pothole" ==> RoleOf(name) == Some(RoadMaintenance)
  {
  }

  /** A table label written with a capital is routed like the table key. */
  lemma CapitalisedLabelRoutes()
    ensures RoleOf("Fire") == Some(FireDepartment)
  {
    var t := ToLower("Fire");
    assert t[0] == 'f' && t[1] == 'i' && t[2] == 'r' && t[3] == 'e';
    assert t == "fire";
  }

  /** A label outside the table has no role. */
  lemma UnknownLabelUnrouted()
    ensures RoleOf("litter") == None
  {
    var u := ToLower("litter");
    assert u[0] == 'l';
    assert u !in RoleTable;
  }
}
