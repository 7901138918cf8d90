/** The value types of lib/types.ts: a medical record with its seven
    recognised text fields and an optional store-assigned id, and the
    connection settings of the store. */
module Types {
  import opened Wrappers

  /** The seven recognised fields of a record. */
  datatype Field = Disease | Drug | Medicine | Tridose | Pss | Planet | Author

  /** The property name of a field, as written in the record objects. */
  function FieldName(f: Field): string
  {
    match f
    case Disease => "disease"
    case Drug => "drug"
    case Medicine => "medicine"
    case Tridose => "tridose"
    case Pss => "pss"
    case Planet => "planet"
    case Author => "author"
  }

  /** The property name with its first letter in upper case ("Disease",
      ..., "Pss"), the second spelling a spreadsheet header may use. */
  function CapitalisedName(f: Field): string
  {
    match f
    case Disease => "Disease"
    case Drug => "Drug"
    case Medicine => "Medicine"
    case Tridose => "Tridose"
    case Pss => "Pss"
    case Planet => "Planet"
    case Author => "Author"
  }

  /** The order the fields are declared in: the column order of a pasted
      line (`fields`) and the order of the manual form's inputs (the keys
      of `emptyRecord`). */
  const FieldOrder: seq<Field> := [Disease, Drug, Medicine, Tridose, Pss, Planet, Author]

  /** The position of a field in `FieldOrder`. */
  function Position(f: Field): nat
  {
    match f
    case Disease => 0
    case Drug => 1
    case Medicine => 2
    case Tridose => 3
    case Pss => 4
    case Planet => 5
    case Author => 6
  }

  /** The order names every field exactly once. */
  lemma FieldOrderIsPermutation()
    ensures |FieldOrder| == 7
    ensures forall f: Field :: Position(f) < 7 && FieldOrder[Position(f)] == f
    ensures forall i :: 0 <= i < 7 ==> Position(FieldOrder[i]) == i
  {
  }

  /** A medical record. `id` is present once the store has assigned one.
      Extra properties beyond the seven fields are not modelled. */
  datatype MedicalRecord = MedicalRecord(
    id: Option<int>,
    disease: string,
    drug: string,
    medicine: string,
    tridose: string,
    pss: string,
    planet: string,
    author: string)
  {
    /** `record[field]`. */
    function Get(f: Field): string
    {
      match f
      case Disease => disease
      case Drug => drug
      case Medicine => medicine
      case Tridose => tridose
      case Pss => pss
      case Planet => planet
      case Author => author
    }

    /** `{ ...record, [field]: value }`: field `f` becomes `v`, the id and
        every other field stay as they were. */
    function With(f: Field, v: string): (r: MedicalRecord)
      ensures r.Get(f) == v
      ensures forall g: Field :: g != f ==> r.Get(g) == Get(g)
      ensures r.id == id
    {
      match f
      case Disease => this.(disease := v)
      case Drug => this.(drug := v)
      case Medicine => this.(medicine := v)
      case Tridose => this.(tridose := v)
      case Pss => this.(pss := v)
      case Planet => this.(planet := v)
      case Author => this.(author := v)
    }
  }

  /** A record is determined by its id and its seven fields. */
  lemma RecordsEqual(r: MedicalRecord, s: MedicalRecord)
    requires r.id == s.id
    requires forall f: Field :: r.Get(f) == s.Get(f)
    ensures r == s
  {
    assert r.Get(Disease) == s.Get(Disease) && r.Get(Drug) == s.Get(Drug);
    assert r.Get(Medicine) == s.Get(Medicine) && r.Get(Tridose) == s.Get(Tridose);
    assert r.Get(Pss) == s.Get(Pss) && r.Get(Planet) == s.Get(Planet);
    assert r.Get(Author) == s.Get(Author);
  }

  /** Connection settings: endpoint, the low-privilege key, the optional
      elevated key, and the target table. */
  datatype DatabaseConfig = DatabaseConfig(
    url: string,
    anonKey: string,
    serviceKey: Option<string>,
    tableName: string)
}
