/** The seven labels the service reports, in `OBESITY_CLASSES` order (API/services.py). The order
    is the label encoder's, and every probability vector in this model is indexed by it. */
module Classes {
  import opened Wrappers

  datatype ObesityClass =
    | InsufficientWeight
    | NormalWeight
    | ObesityTypeI
    | ObesityTypeII
    | ObesityTypeIII
    | OverweightLevelI
    | OverweightLevelII

  /** `OBESITY_CLASSES`. */
  const ObesityClasses: seq<string> := [
    "Insufficient_Weight",
    "Normal_Weight",
    "Obesity_Type_I",
    "Obesity_Type_II",
    "Obesity_Type_III",
    "Overweight_Level_I",
    "Overweight_Level_II"
  ]

  const ClassCount: nat := 7

  /** The position of a class in `OBESITY_CLASSES`. */
  function Index(c: ObesityClass): (i: nat)
    ensures i < ClassCount && i < |ObesityClasses|
  {
    match c
    case InsufficientWeight => 0
    case NormalWeight => 1
    case ObesityTypeI => 2
    case ObesityTypeII => 3
    case ObesityTypeIII => 4
    case OverweightLevelI => 5
    case OverweightLevelII => 6
  }

  /** The class at a position of `OBESITY_CLASSES`; the inverse of `Index`. */
  function ClassAt(i: nat): (c: ObesityClass)
    requires i < ClassCount
    ensures Index(c) == i
  {
    [InsufficientWeight, NormalWeight, ObesityTypeI, ObesityTypeII, ObesityTypeIII,
     OverweightLevelI, OverweightLevelII][i]
  }

  lemma IndexInjective(c: ObesityClass, d: ObesityClass)
    ensures Index(c) == Index(d) ==> c == d
  {
  }

  /** The wire name of a class. */
  function Name(c: ObesityClass): (s: string)
    ensures s in ObesityClasses
  {
    ObesityClasses[Index(c)]
  }

  /** No two classes share a name. */
  lemma NamesDistinct()
    ensures forall i, j | 0 <= i < j < |ObesityClasses| :: ObesityClasses[i] != ObesityClasses[j]
  {
  }

  /** The class a wire name denotes, if any: exactly the seven names are recognised, and each
      one denotes the class whose name it is. */
  function FromName(s: string): (r: Option<ObesityClass>)
    ensures r.Some? <==> s in ObesityClasses
    ensures r.Some? ==> Name(r.value) == s
  {
    if s == ObesityClasses[0] then Some(InsufficientWeight)
    else if s == ObesityClasses[1] then Some(NormalWeight)
    else if s == ObesityClasses[2] then Some(ObesityTypeI)
    else if s == ObesityClasses[3] then Some(ObesityTypeII)
    else if s == ObesityClasses[4] then Some(ObesityTypeIII)
    else if s == ObesityClasses[5] then Some(OverweightLevelI)
    else if s == ObesityClasses[6] then Some(OverweightLevelII)
    else None
  }

  lemma NameRoundTrip(c: ObesityClass)
    ensures FromName(Name(c)) == Some(c)
  {
    NamesDistinct();
    IndexInjective(FromName(Name(c)).value, c);
  }
}
