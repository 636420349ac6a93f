/** The lenient coercions from request strings to the closed enumerations of
    the database schema: absent or empty input gives the enumeration's default,
    the rest is upper-cased and compared, and anything unrecognised also gives
    the default. Nothing here can fail. */
module ParseEnums {
  import opened Errors

  datatype Role = ADMIN | VET | OWNER | ANONYMOUS
  datatype Specialty = DOG | CAT | CAT_DOG
  datatype PetType = DOG | CAT | UNKNOWN
  datatype Examination =
    ROUTINE | URGENT | SURGERY | CHECK_UP | FOLLOW_UP | EMERGENCY | LAB_TESTS | X_RAY | ULTRASOUND | VACCINATION
  datatype AppointmentStatus =
    SCHEDULED | CONFIRMED | RESCHEDULED | IN_PROGRESS | COMPLETED | CANCELLED | NO_SHOW

  /** JavaScript's `!value` for a `string | undefined | null`. */
  predicate Falsy(value: Option<string>) {
    value.None? || value.value == ""
  }

  /** `toUpperCase`, restricted to ASCII letters. */
  function UpperChar(c: char): char {
    if 'a' <= c <= 'z' then (c as int - 32) as char else c
  }

  function Upper(s: string): (r: string)
    ensures |r| == |s|
    ensures forall i :: 0 <= i < |s| ==> r[i] == UpperChar(s[i])
  {
    seq(|s|, i requires 0 <= i < |s| => UpperChar(s[i]))
  }

  lemma UpperIdempotent(s: string)
    ensures Upper(Upper(s)) == Upper(s)
  {
    assert forall i :: 0 <= i < |s| ==> Upper(Upper(s))[i] == Upper(s)[i];
  }

  // The names under which the schema stores each value.

  function RoleName(r: Role): string {
    match r
    case ADMIN => "ADMIN"
    case VET => "VET"
    case OWNER => "OWNER"
    case ANONYMOUS => "ANONYMOUS"
  }

  function SpecialtyName(s: Specialty): string {
    match s
    case DOG => "DOG"
    case CAT => "CAT"
    case CAT_DOG => "CAT_DOG"
  }

  function PetTypeName(t: PetType): string {
    match t
    case DOG => "DOG"
    case CAT => "CAT"
    case UNKNOWN => "UNKNOWN"
  }

  function ExaminationName(e: Examination): string {
    match e
    case ROUTINE => "ROUTINE"
    case URGENT => "URGENT"
    case SURGERY => "SURGERY"
    case CHECK_UP => "CHECK_UP"
    case FOLLOW_UP => "FOLLOW_UP"
    case EMERGENCY => "EMERGENCY"
    case LAB_TESTS => "LAB_TESTS"
    case X_RAY => "X_RAY"
    case ULTRASOUND => "ULTRASOUND"
    case VACCINATION => "VACCINATION"
  }

  function StatusName(s: AppointmentStatus): string {
    match s
    case SCHEDULED => "SCHEDULED"
    case CONFIRMED => "CONFIRMED"
    case RESCHEDULED => "RESCHEDULED"
    case IN_PROGRESS => "IN_PROGRESS"
    case COMPLETED => "COMPLETED"
    case CANCELLED => "CANCELLED"
    case NO_SHOW => "NO_SHOW"
  }

  /** getRoleEnum. Only ADMIN, VET and OWNER are recognised; every other
      input, the name ANONYMOUS included, falls to the default ANONYMOUS. */
  function ParseRole(value: Option<string>): (r: Role)
    ensures Falsy(value) ==> r == ANONYMOUS
    ensures !Falsy(value) ==> (r == ANONYMOUS || RoleName(r) == Upper(value.value))
    ensures !Falsy(value) ==> forall x: Role :: RoleName(x) == Upper(value.value) ==> r == x
  {
    if Falsy(value) then ANONYMOUS
    else
      var v := Upper(value.value);
      if v == "ADMIN" then ADMIN
      else if v == "VET" then VET
      else if v == "OWNER" then OWNER
      else ANONYMOUS
  }

  /** getSpecialtyEnum, with default CAT_DOG. */
  function ParseSpecialty(value: Option<string>): (r: Specialty)
    ensures Falsy(value) ==> r == Specialty.CAT_DOG
    ensures !Falsy(value) ==> (r == Specialty.CAT_DOG || SpecialtyName(r) == Upper(value.value))
    ensures !Falsy(value) ==> forall x: Specialty :: SpecialtyName(x) == Upper(value.value) ==> r == x
  {
    if Falsy(value) then Specialty.CAT_DOG
    else
      var v := Upper(value.value);
      if v == "DOG" then Specialty.DOG
      else if v == "CAT" then Specialty.CAT
      else if v == "CAT_DOG" then Specialty.CAT_DOG
      else Specialty.CAT_DOG
  }

  /** getPetTypeEnum, with default UNKNOWN. The source's third comparison is
      against the misspelling "UNKWON", kept here; it returns the default. */
  function ParsePetType(value: Option<string>): (r: PetType)
    ensures Falsy(value) ==> r == PetType.UNKNOWN
    ensures !Falsy(value) ==> (r == PetType.UNKNOWN || PetTypeName(r) == Upper(value.value))
    ensures !Falsy(value) ==> forall x: PetType :: PetTypeName(x) == Upper(value.value) ==> r == x
  {
    if Falsy(value) then PetType.UNKNOWN
    else
      var v := Upper(value.value);
      if Upper(v) == "DOG" then PetType.DOG
      else if Upper(v) == "CAT" then PetType.CAT
      else if Upper(v) == "UNKWON" then PetType.UNKNOWN
      else PetType.UNKNOWN
  }

  /** getExaminationEnum, with default ROUTINE. */
  function ParseExamination(value: Option<string>): (r: Examination)
    ensures Falsy(value) ==> r == ROUTINE
    ensures !Falsy(value) ==> (r == ROUTINE || ExaminationName(r) == Upper(value.value))
    ensures !Falsy(value) ==> forall x: Examination :: ExaminationName(x) == Upper(value.value) ==> r == x
  {
    if Falsy(value) then ROUTINE
    else
      var v := Upper(value.value);
      if v == "CHECK_UP" then CHECK_UP
      else if v == "FOLLOW_UP" then FOLLOW_UP
      else if v == "ROUTINE" then ROUTINE
      else if v == "URGENT" then URGENT
      else if v == "EMERGENCY" then EMERGENCY
      else if v == "LAB_TESTS" then LAB_TESTS
      else if v == "X_RAY" then X_RAY
      else if v == "ULTRASOUND" then ULTRASOUND
      else if v == "SURGERY" then SURGERY
      else if v == "VACCINATION" then VACCINATION
      else ROUTINE
  }

  /** getAppointmentStatusEnum, with default SCHEDULED. */
  function ParseStatus(value: Option<string>): (r: AppointmentStatus)
    ensures Falsy(value) ==> r == SCHEDULED
    ensures !Falsy(value) ==> (r == SCHEDULED || StatusName(r) == Upper(value.value))
    ensures !Falsy(value) ==> forall x: AppointmentStatus :: StatusName(x) == Upper(value.value) ==> r == x
  {
    if Falsy(value) then SCHEDULED
    else
      var v := Upper(value.value);
      if v == "SCHEDULED" then SCHEDULED
      else if v == "CONFIRMED" then CONFIRMED
      else if v == "RESCHEDULED" then RESCHEDULED
      else if v == "CANCELLED" then CANCELLED
      else if v == "COMPLETED" then COMPLETED
      else if v == "NO_SHOW" then NO_SHOW
      else if v == "IN_PROGRESS" then IN_PROGRESS
      else SCHEDULED
  }

  /** Every value's own name maps back to it. */
  lemma RoleNameRoundTrip(x: Role)
    ensures ParseRole(Some(RoleName(x))) == x
  {
    assert Upper(RoleName(x)) == RoleName(x);
  }

  lemma SpecialtyNameRoundTrip(x: Specialty)
    ensures ParseSpecialty(Some(SpecialtyName(x))) == x
  {
    assert Upper(SpecialtyName(x)) == SpecialtyName(x);
  }

  lemma PetTypeNameRoundTrip(x: PetType)
    ensures ParsePetType(Some(PetTypeName(x))) == x
  {
    assert Upper(PetTypeName(x)) == PetTypeName(x);
  }

  lemma ExaminationNameRoundTrip(x: Examination)
    ensures ParseExamination(Some(ExaminationName(x))) == x
  {
    match x
    case ROUTINE => assert Upper("ROUTINE") == "ROUTINE";
    case URGENT => assert Upper("URGENT") == "URGENT";
    case SURGERY => assert Upper("SURGERY") == "SURGERY";
    case CHECK_UP => assert Upper("CHECK_UP") == "CHECK_UP";
    case FOLLOW_UP => assert Upper("FOLLOW_UP") == "FOLLOW_UP";
    case EMERGENCY => assert Upper("EMERGENCY") == "EMERGENCY";
    case LAB_TESTS => assert Upper("LAB_TESTS") == "LAB_TESTS";
    case X_RAY => assert Upper("X_RAY") == "X_RAY";
    case ULTRASOUND => assert Upper("ULTRASOUND") == "ULTRASOUND";
    case VACCINATION => assert Upper("VACCINATION") == "VACCINATION";
  }

  lemma StatusNameRoundTrip(x: AppointmentStatus)
    ensures ParseStatus(Some(StatusName(x))) == x
  {
    match x
    case SCHEDULED => assert Upper("SCHEDULED") == "SCHEDULED";
    case CONFIRMED => assert Upper("CONFIRMED") == "CONFIRMED";
    case RESCHEDULED => assert Upper("RESCHEDULED") == "RESCHEDULED";
    case IN_PROGRESS => assert Upper("IN_PROGRESS") == "IN_PROGRESS";
    case COMPLETED => assert Upper("COMPLETED") == "COMPLETED";
    case CANCELLED => assert Upper("CANCELLED") == "CANCELLED";
    case NO_SHOW => assert Upper("NO_SHOW") == "NO_SHOW";
  }

  /** Coercing the name of a coerced value gives that value back. */
  lemma CoercionIdempotent(value: Option<string>)
    ensures ParseRole(Some(RoleName(ParseRole(value)))) == ParseRole(value)
    ensures ParseSpecialty(Some(SpecialtyName(ParseSpecialty(value)))) == ParseSpecialty(value)
    ensures ParsePetType(Some(PetTypeName(ParsePetType(value)))) == ParsePetType(value)
    ensures ParseExamination(Some(ExaminationName(ParseExamination(value)))) == ParseExamination(value)
    ensures ParseStatus(Some(StatusName(ParseStatus(value)))) == ParseStatus(value)
  {
    RoleNameRoundTrip(ParseRole(value));
    SpecialtyNameRoundTrip(ParseSpecialty(value));
    PetTypeNameRoundTrip(ParsePetType(value));
    ExaminationNameRoundTrip(ParseExamination(value));
    StatusNameRoundTrip(ParseStatus(value));
  }

  /** Matching ignores case: a string and its upper-cased form coerce alike. */
  lemma CoercionIgnoresCase(s: string)
    ensures ParseRole(Some(s)) == ParseRole(Some(Upper(s)))
    ensures ParseSpecialty(Some(s)) == ParseSpecialty(Some(Upper(s)))
    ensures ParsePetType(Some(s)) == ParsePetType(Some(Upper(s)))
    ensures ParseExamination(Some(s)) == ParseExamination(Some(Upper(s)))
    ensures ParseStatus(Some(s)) == ParseStatus(Some(Upper(s)))
  {
    UpperIdempotent(s);
  }

  /** A non-empty string that names no value of the enumeration gets the default. */
  lemma UnrecognisedGivesDefault(s: string)
    requires s != ""
    ensures (forall x: Role :: RoleName(x) != Upper(s)) ==> ParseRole(Some(s)) == ANONYMOUS
    ensures (forall x: Specialty :: SpecialtyName(x) != Upper(s)) ==> ParseSpecialty(Some(s)) == Specialty.CAT_DOG
    ensures (forall x: PetType :: PetTypeName(x) != Upper(s)) ==> ParsePetType(Some(s)) == PetType.UNKNOWN
    ensures (forall x: Examination :: ExaminationName(x) != Upper(s)) ==> ParseExamination(Some(s)) == ROUTINE
    ensures (forall x: AppointmentStatus :: StatusName(x) != Upper(s)) ==> ParseStatus(Some(s)) == SCHEDULED
  {
  }

  /** Only DOG and CAT, in any case, give a pet type other than UNKNOWN. */
  lemma PetTypeKnownOnlyForDogAndCat(value: Option<string>)
    ensures ParsePetType(value) != PetType.UNKNOWN <==>
      !Falsy(value) && (Upper(value.value) == "DOG" || Upper(value.value) == "CAT")
  {
  }

  /** ADMIN, VET and OWNER are the only role names recognised; every other
      input, the name ANONYMOUS included, gives ANONYMOUS. */
  lemma RoleRecognisedOnlyForThreeNames(value: Option<string>)
    ensures ParseRole(value) != ANONYMOUS <==>
      !Falsy(value) && Upper(value.value) in ["ADMIN", "VET", "OWNER"]
    ensures ParseRole(Some("anonymous")) == ANONYMOUS
  {
  }

  /** Two coercions the services rely on: an unknown status is stored as
      SCHEDULED, and lower-case names are accepted. */
  lemma CoercionExamples()
    ensures ParseStatus(Some("bogus")) == SCHEDULED
    ensures ParseStatus(Some("cancelled")) == CANCELLED
    ensures ParseExamination(Some("x_ray")) == X_RAY
    ensures ParseExamination(Some("checkup")) == ROUTINE
    ensures ParsePetType(Some("UNKWON")) == PetType.UNKNOWN
  {
    assert Upper("cancelled") == "CANCELLED";
  }
}
