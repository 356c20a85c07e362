/**
 * The Population resource (cellengine/resources/population.py): its fields,
 * which of them are guarded by the readonly hook, its repr and its REST path.
 * Remote calls (get, update, delete) and (un)structuring are not modelled.
 */
module PopulationResource {
  import opened Outcomes

  datatype Population = Population(
    id: Option<string>,          // `_id`; None when the population is not saved yet
    experimentId: string,
    name: string,
    gates: string,
    uniqueName: Option<string>,
    parentId: Option<string>,
    terminalGateGid: Option<string>)

  /** The attrs-generated constructor with the three defaulted fields left at None. */
  function NewPopulation(id: Option<string>, experimentId: string, name: string, gates: string): (p: Population)
    ensures p.id == id && p.experimentId == experimentId && p.name == name && p.gates == gates
    ensures p.uniqueName.None? && p.parentId.None? && p.terminalGateGid.None?
  {
    Population(id, experimentId, name, gates, None, None, None)
  }

  /** How an f-string renders an optional string: None becomes "None". */
  function Show(s: Option<string>): string {
    match s
    case None => "None"
    case Some(v) => v
  }

  // ---------------------------------------------------------------- fields

  datatype Field = Id | ExperimentId | Name | Gates | UniqueName | ParentId | TerminalGateGid

  function FieldText(p: Population, f: Field): Option<string> {
    match f
    case Id => p.id
    case ExperimentId => Some(p.experimentId)
    case Name => Some(p.name)
    case Gates => Some(p.gates)
    case UniqueName => p.uniqueName
    case ParentId => p.parentId
    case TerminalGateGid => p.terminalGateGid
  }

  /**
   * Outcome of `population.<field> = value`: fields declared with
   * `on_setattr=readonly` hand the assignment to the readonly hook (whose
   * behaviour is not part of this model); the others are plain attributes.
   */
  datatype Assignment = ReadonlyHook(field: Field) | Assigned(population: Population)

  function Assign(p: Population, f: Field, value: string): (r: Assignment)
    ensures r.ReadonlyHook? <==> f == Id || f == ExperimentId || f == UniqueName
    ensures r.ReadonlyHook? ==> r.field == f
    ensures r.Assigned? ==> FieldText(r.population, f) == Some(value)
    ensures r.Assigned? ==> forall g :: g != f ==> FieldText(r.population, g) == FieldText(p, g)
  {
    match f
    case Id => ReadonlyHook(Id)
    case ExperimentId => ReadonlyHook(ExperimentId)
    case UniqueName => ReadonlyHook(UniqueName)
    case Name => Assigned(p.(name := value))
    case Gates => Assigned(p.(gates := value))
    case ParentId => Assigned(p.(parentId := Some(value)))
    case TerminalGateGid => Assigned(p.(terminalGateGid := Some(value)))
  }

  // ------------------------------------------------------------------ repr

  const ReprHead: string := "Population(_id='"

  /** `Population(_id='<id>', name='<name>')`. */
  function Repr(p: Population): (r: string)
    ensures |r| == |ReprHead| + |Show(p.id)| + |"', name='"| + |p.name| + |"')"|
    ensures r[..|ReprHead|] == ReprHead && r[|r| - 2..] == "')"
    ensures r[|ReprHead|..|ReprHead| + |Show(p.id)|] == Show(p.id)
    ensures r[|ReprHead| + |Show(p.id)|..|ReprHead| + |Show(p.id)| + 9] == "', name='"
    ensures r[|r| - 2 - |p.name|..|r| - 2] == p.name
  {
    ReprHead + Show(p.id) + "', name='" + p.name + "')"
  }

  /** The text up to the first single quote. */
  function UpToQuote(s: string): (r: string)
    ensures r <= s && '\'' !in r
  {
    if s == [] || s[0] == '\'' then [] else [s[0]] + UpToQuote(s[1..])
  }

  lemma {:induction false} UpToQuoteOf(a: string, b: string)
    requires '\'' !in a
    ensures UpToQuote(a + "'" + b) == a
  {
    if a != [] {
      assert (a + "'" + b)[1..] == a[1..] + "'" + b;
      UpToQuoteOf(a[1..], b);
    }
  }

  /** The repr shows the id unambiguously whenever the id contains no quote. */
  lemma ReprShowsId(p: Population)
    requires '\'' !in Show(p.id)
    ensures UpToQuote(Repr(p)[|ReprHead|..]) == Show(p.id)
  {
    var r := Repr(p);
    assert r[|ReprHead|..] == Show(p.id) + "'" + (", name='" + p.name + "')");
    UpToQuoteOf(Show(p.id), ", name='" + p.name + "')");
  }

  /** The name is the text between the separator after the id and the closing `')`. */
  lemma ReprShowsName(p: Population)
    requires '\'' !in Show(p.id)
    ensures var rest := Repr(p)[|ReprHead|..];
      |UpToQuote(rest)| + 11 <= |rest| && rest[|UpToQuote(rest)| + 9..|rest| - 2] == p.name
  {
    var r := Repr(p);
    ReprShowsId(p);
    assert r[|ReprHead|..] == Show(p.id) + "', name='" + p.name + "')";
  }

  // ------------------------------------------------------------------ path

  /** The character set of `rstrip("/None")`. */
  predicate Stripped(c: char) {
    c == '/' || c == 'N' || c == 'o' || c == 'n' || c == 'e'
  }

  /**
   * `s.rstrip("/None")`: removes the longest suffix made only of characters
   * of the set, which is not the same as removing the suffix "/None".
   */
  function RStrip(s: string): (r: string)
    ensures r <= s
    ensures forall i :: |r| <= i < |s| ==> Stripped(s[i])
    ensures r == [] || !Stripped(r[|r| - 1])
  {
    if s != [] && Stripped(s[|s| - 1]) then RStrip(s[..|s| - 1]) else s
  }

  /** The three facts above determine the result: any such split of s is the one RStrip finds. */
  lemma {:induction false} RStripUnique(s: string, kept: string)
    requires kept <= s
    requires forall i :: |kept| <= i < |s| ==> Stripped(s[i])
    requires kept == [] || !Stripped(kept[|kept| - 1])
    ensures RStrip(s) == kept
  {
    if |s| > |kept| {
      RStripUnique(s[..|s| - 1], kept);
    }
  }

  lemma RStripIdempotent(s: string)
    ensures RStrip(RStrip(s)) == RStrip(s)
  {
    var r := RStrip(s);
    RStripUnique(r, r);
  }

  /** Stripping never reaches into a prefix that ends outside the set. */
  lemma {:induction false} RStripKeepsPrefix(p: string, q: string)
    requires p != [] && !Stripped(p[|p| - 1])
    ensures RStrip(p + q) == p + RStrip(q)
  {
    if q != [] {
      assert (p + q)[..|p + q| - 1] == p + q[..|q| - 1];
      RStripKeepsPrefix(p, q[..|q| - 1]);
    } else {
      assert p + q == p;
    }
  }

  function CollectionPath(experimentId: string): string {
    "experiments/" + experimentId + "/populations"
  }

  function Unstripped(p: Population): string {
    CollectionPath(p.experimentId) + "/" + Show(p.id)
  }

  /** The `path` property as written. */
  function Path(p: Population): (r: string)
    ensures CollectionPath(p.experimentId) <= r
    ensures r != [] && !Stripped(r[|r| - 1])
    ensures p.id.None? ==> r == CollectionPath(p.experimentId)
  {
    var collection := CollectionPath(p.experimentId);
    assert collection[|collection| - 1] == 's';
    assert Unstripped(p) == collection + ("/" + Show(p.id));
    RStripKeepsPrefix(collection, "/" + Show(p.id));
    assert RStrip("/None") == [];
    RStrip(Unstripped(p))
  }

  /** The formatted string is the path followed only by characters of the strip set. */
  lemma PathThenStripped(p: Population)
    ensures var u, r := Unstripped(p), Path(p);
      r <= u && forall i :: |r| <= i < |u| ==> Stripped(u[i])
  {
  }

  // ---------------------------------------------------- intended behaviour

  /**
   * Every id ending in a character of the strip set (any ObjectId ending in
   * hex digit 'e', for one) loses that character: two different ids give
   * the same path.
   */
  lemma PathTruncatesId(p: Population, id: string)
    requires id != [] && Stripped(id[|id| - 1])
    ensures Path(p.(id := Some(id))) == Path(p.(id := Some(id[..|id| - 1])))
  {
    var u := Unstripped(p.(id := Some(id)));
    assert u[..|u| - 1] == Unstripped(p.(id := Some(id[..|id| - 1])));
  }

  /**
   * A concrete ObjectId-shaped id ending in 'e': its path is the intended
   * path of the population whose id lacks that last 'e'.
   */
  lemma PathOfObjectIdEndingInE()
    ensures var p := NewPopulation(Some("5d38a6f79fae87499999a74e"), "x", "CD4", "g");
      Path(p) == IntendedPath(p.(id := Some("5d38a6f79fae87499999a74"))) != IntendedPath(p)
  {
    var id := "5d38a6f79fae87499999a74e";
    var p := NewPopulation(Some(id), "x", "CD4", "g");
    PathTruncatesId(p, id);
    assert id[..|id| - 1] == "5d38a6f79fae87499999a74";
    PathAgreesOnSafeIds(p.(id := Some("5d38a6f79fae87499999a74")));
    if IntendedPath(p.(id := Some("5d38a6f79fae87499999a74"))) == IntendedPath(p) {
      IntendedPathInjective(p.(id := Some("5d38a6f79fae87499999a74")), p);
    }
  }

  /** The path the code evidently means: the collection when unsaved, else the collection and the id. */
  function IntendedPath(p: Population): (r: string)
    ensures p.id.None? ==> r == CollectionPath(p.experimentId)
    ensures p.id.Some? ==> |r| == |CollectionPath(p.experimentId)| + 1 + |p.id.value|
    ensures p.id.Some? ==> r[..|CollectionPath(p.experimentId)| + 1] == CollectionPath(p.experimentId) + "/"
    ensures p.id.Some? ==> r[|CollectionPath(p.experimentId)| + 1..] == p.id.value
  {
    match p.id
    case None => CollectionPath(p.experimentId)
    case Some(id) => CollectionPath(p.experimentId) + "/" + id
  }

  /** Within one experiment, the intended path tells populations apart by id. */
  lemma IntendedPathInjective(p: Population, q: Population)
    requires p.experimentId == q.experimentId
    requires IntendedPath(p) == IntendedPath(q)
    ensures p.id == q.id
  {
    var c := CollectionPath(p.experimentId);
    if p.id.Some? && q.id.Some? {
      assert p.id.value == IntendedPath(p)[|c| + 1..];
    }
  }

  /** The path as written agrees with the intended one except on ids that end in the strip set. */
  lemma PathAgreesOnSafeIds(p: Population)
    requires p.id.Some? ==> p.id.value != [] && !Stripped(p.id.value[|p.id.value| - 1])
    ensures Path(p) == IntendedPath(p)
  {
    if p.id.Some? {
      RStripUnique(Unstripped(p), Unstripped(p));
    }
  }
}
