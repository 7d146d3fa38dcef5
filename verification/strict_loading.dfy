/** Strict loading: a record marked strict refuses to load an association
    lazily, so every association it reads must have been loaded together with
    it (`includes`, `preload`, `eager_load`).

    A record is strict when the relation that loaded it was `strict_loading`,
    when `strict_loading!` was called on it, or when its class (or the nearest
    ancestor that says so) has `strict_loading_by_default`. Records preloaded
    or eager-loaded under a strict relation, under an association whose scope
    is `strict_loading`, or of a class strict by default, are strict as well.
    An association declared with `strict_loading: true` refuses lazy loading
    whatever the owner says.

    The database is a parameter: for each owner id and association name, the
    ids of the associated rows.
 */
module StrictLoading {
  import opened Common
  import opened ClassHierarchy

  /** The class-level `strict_loading_by_default` values that were set
      explicitly; a class without an entry inherits its parent's. */
  type StrictDefaults = map<ClassName, bool>

  datatype AssocKind = BelongsTo | HasOne | HasMany | HasAndBelongsToMany

  /** An association declaration: its name, kind and target class, the
      `strict_loading:` option, and whether its scope is `-> { strict_loading }`. */
  datatype Reflection = Reflection(name: string, kind: AssocKind, target: ClassChain,
                                   strictOption: bool, scopeStrict: bool)

  /** A loaded record: its class, id, strict-loading flag, and the association
      targets already loaded into it, by association name. */
  datatype Record = Record(cls: ClassChain, id: int, strict: bool, loaded: map<string, seq<Record>>)

  datatype Model = Model(cls: ClassChain, reflections: map<string, Reflection>)

  /** A relation on `model`: whether it is `strict_loading` and which
      associations it loads along with the records. */
  datatype Relation = Relation(model: Model, strict: bool, includes: set<string>)

  /** Associated row ids, by owner id and association name. */
  type Db = map<(int, string), seq<int>>

  function Rows(db: Db, id: int, name: string): seq<int> {
    if (id, name) in db then db[(id, name)] else []
  }

  /** `Model.strict_loading_by_default`: the class's own setting, else the
      nearest ancestor's, else false (the `ActiveRecord::Base` default). */
  function StrictByDefault(defaults: StrictDefaults, cls: ClassChain): (b: bool)
    ensures cls[0] in defaults ==> b == defaults[cls[0]]
    ensures (forall i :: 0 <= i < |cls| ==> cls[i] !in defaults) ==> !b
  {
    Inherited(cls, defaults, false)
  }

  /** A record built by a query: strict when the relation was `strict_loading`
      or the class is strict by default. Nothing is loaded into it yet. */
  function Instantiate(defaults: StrictDefaults, cls: ClassChain, id: int, relationStrict: bool): (r: Record)
    ensures r.cls == cls && r.id == id && r.loaded == map[]
    ensures r.strict <==> relationStrict || StrictByDefault(defaults, cls)
  {
    Record(cls, id, relationStrict || StrictByDefault(defaults, cls), map[])
  }

  /** Records of an association's target loaded for the given ids; a
      `strict_loading` scope on the association makes them strict. */
  function LoadTargets(defaults: StrictDefaults, refl: Reflection, ids: seq<int>, relationStrict: bool): (cs: seq<Record>)
    ensures |cs| == |ids|
    ensures forall i :: 0 <= i < |ids| ==>
              && cs[i].cls == refl.target && cs[i].id == ids[i] && cs[i].loaded == map[]
              && (cs[i].strict <==> relationStrict || refl.scopeStrict || StrictByDefault(defaults, refl.target))
  {
    seq(|ids|, i requires 0 <= i < |ids| => Instantiate(defaults, refl.target, ids[i], relationStrict || refl.scopeStrict))
  }

  /** One record of a relation, with every included association preloaded.
      An included name the model does not declare is skipped. */
  function LoadRecord(defaults: StrictDefaults, rel: Relation, id: int, db: Db): (r: Record)
    ensures r.cls == rel.model.cls && r.id == id
    ensures r.strict <==> rel.strict || StrictByDefault(defaults, rel.model.cls)
    ensures forall name :: name in r.loaded <==> name in rel.includes && name in rel.model.reflections
    ensures forall name :: name in r.loaded ==>
              r.loaded[name] == LoadTargets(defaults, rel.model.reflections[name], Rows(db, id, name), rel.strict)
  {
    var base := Instantiate(defaults, rel.model.cls, id, rel.strict);
    base.(loaded := map name | name in rel.includes && name in rel.model.reflections ::
                      LoadTargets(defaults, rel.model.reflections[name], Rows(db, id, name), rel.strict))
  }

  /** Loads the relation's records for the given ids, in order. */
  function LoadRelation(defaults: StrictDefaults, rel: Relation, ids: seq<int>, db: Db): (rs: seq<Record>)
    ensures |rs| == |ids|
    ensures forall i :: 0 <= i < |ids| ==> rs[i] == LoadRecord(defaults, rel, ids[i], db)
  {
    seq(|ids|, i requires 0 <= i < |ids| => LoadRecord(defaults, rel, ids[i], db))
  }

  /** `strict_loading!`: marks one record strict; what is loaded stays loaded. */
  function MarkStrict(rec: Record): (r: Record)
    ensures r.strict
    ensures r.cls == rec.cls && r.id == rec.id && r.loaded == rec.loaded
  {
    rec.(strict := true)
  }

  /** True when reading `refl` on `rec` would have to load it lazily from a
      record or association that forbids it. */
  predicate ViolatesStrictLoading(rec: Record, refl: Reflection) {
    refl.name !in rec.loaded && (rec.strict || refl.strictOption)
  }

  /** Reading an association (`record.assoc`, `.to_a`, `.first`): a loaded
      target is returned as is; an unloaded one is loaded lazily and cached
      unless the owner is strict or the association is declared strict, which
      raises `StrictLoadingViolationError`. */
  function ReadAssociation(defaults: StrictDefaults, rec: Record, refl: Reflection, db: Db): (r: Outcome<(Record, seq<Record>)>)
    ensures r.Raised? <==> ViolatesStrictLoading(rec, refl)
    ensures r.Raised? ==> r.error == StrictLoadingViolation(rec.cls[0], refl.name)
    ensures refl.name in rec.loaded ==> r == Returned((rec, rec.loaded[refl.name]))
    ensures r.Returned? ==>
              var (rec', targets) := r.value;
              && rec' == rec.(loaded := rec.loaded[refl.name := targets])
              && |targets| == (if refl.name in rec.loaded then |rec.loaded[refl.name]| else |Rows(db, rec.id, refl.name)|)
    ensures r.Returned? && refl.name !in rec.loaded ==>
              forall c :: c in r.value.1 ==> (c.strict <==> refl.scopeStrict || StrictByDefault(defaults, refl.target))
  {
    if refl.name in rec.loaded then Returned((rec, rec.loaded[refl.name]))
    else if rec.strict || refl.strictOption then Raised(StrictLoadingViolation(rec.cls[0], refl.name))
    else
      var targets := LoadTargets(defaults, refl, Rows(db, rec.id, refl.name), false);
      Returned((rec.(loaded := rec.loaded[refl.name := targets]), targets))
  }

  /** Runs `body` with `cls` strict by default, then sets the class's value
      back to what it read before; the body's result is returned. Afterwards
      the class, each of its descendants and every class outside its hierarchy
      reads the value it read before. */
  function WithStrictLoadingByDefault<T>(defaults: StrictDefaults, cls: ClassChain, body: StrictDefaults -> T): (r: (T, StrictDefaults))
    ensures r.0 == body(defaults[cls[0] := true])
    ensures StrictByDefault(defaults[cls[0] := true], cls)
    ensures r.1 == defaults[cls[0] := StrictByDefault(defaults, cls)]
    ensures forall prefix :: cls[0] !in prefix ==>
              Inherited(prefix + cls, r.1, false) == Inherited(prefix + cls, defaults, false)
    ensures forall other :: cls[0] !in other ==> Inherited(other, r.1, false) == Inherited(other, defaults, false)
  {
    var previous := StrictByDefault(defaults, cls);
    RestoringKeepsEveryReading(defaults, cls);
    (body(defaults[cls[0] := true]), defaults[cls[0] := previous])
  }

  /** Every record of a relation is strict exactly when the relation is
      `strict_loading` or its class is strict by default, and every included
      association is loaded into it. */
  lemma RelationRecordsStrictness(defaults: StrictDefaults, rel: Relation, ids: seq<int>, db: Db)
    ensures forall r :: r in LoadRelation(defaults, rel, ids, db) ==>
              && (r.strict <==> rel.strict || StrictByDefault(defaults, rel.model.cls))
              && (forall name :: name in rel.includes && name in rel.model.reflections ==> name in r.loaded)
  {
    var rs := LoadRelation(defaults, rel, ids, db);
    forall r | r in rs
      ensures r.strict <==> rel.strict || StrictByDefault(defaults, rel.model.cls)
    {
      var i :| 0 <= i < |rs| && rs[i] == r;
    }
  }

  /** Records preloaded for an included association are strict when the
      relation is `strict_loading`, the association's scope is, or the target
      class is strict by default, and only then. */
  lemma PreloadedTargetsStrictness(defaults: StrictDefaults, rel: Relation, id: int, db: Db, name: string)
    requires name in rel.includes && name in rel.model.reflections
    ensures var refl := rel.model.reflections[name];
      var rec := LoadRecord(defaults, rel, id, db);
      && name in rec.loaded
      && forall c :: c in rec.loaded[name] ==>
           (c.strict <==> rel.strict || refl.scopeStrict || StrictByDefault(defaults, refl.target))
  {
    var refl := rel.model.reflections[name];
    var cs := LoadRecord(defaults, rel, id, db).loaded[name];
    forall c | c in cs
      ensures c.strict <==> rel.strict || refl.scopeStrict || StrictByDefault(defaults, refl.target)
    {
      var i :| 0 <= i < |cs| && cs[i] == c;
    }
  }

  /** An association loaded with the record never raises when read, whether
      the record or the association is strict, and yields the preloaded
      targets. */
  lemma IncludedAssociationNeverRaises(defaults: StrictDefaults, rel: Relation, id: int, db: Db, name: string)
    requires name in rel.includes && name in rel.model.reflections
    requires rel.model.reflections[name].name == name
    ensures var rec := LoadRecord(defaults, rel, id, db);
      var refl := rel.model.reflections[name];
      && ReadAssociation(defaults, rec, refl, db).Returned?
      && |ReadAssociation(defaults, rec, refl, db).value.1| == |Rows(db, id, name)|
  {
  }

  /** A record of a strict relation, or of a class strict by default, raises on
      every association it did not include; a record of neither kind raises
      only on associations declared `strict_loading: true`. */
  lemma LazyReadRaisesExactlyWhenStrict(defaults: StrictDefaults, rel: Relation, id: int, db: Db, refl: Reflection)
    requires refl.name !in rel.includes
    ensures var rec := LoadRecord(defaults, rel, id, db);
      ReadAssociation(defaults, rec, refl, db).Raised?
      <==> rel.strict || StrictByDefault(defaults, rel.model.cls) || refl.strictOption
  {
    var rec := LoadRecord(defaults, rel, id, db);
    assert refl.name !in rec.loaded;
  }

  /** `strict_loading!` on a record that has not loaded an association makes
      reading it raise, naming the record's class and the association. */
  lemma MarkStrictForbidsLazyLoading(defaults: StrictDefaults, rec: Record, refl: Reflection, db: Db)
    requires refl.name !in rec.loaded
    ensures ReadAssociation(defaults, MarkStrict(rec), refl, db)
            == Raised(StrictLoadingViolation(rec.cls[0], refl.name))
  {
  }

  /** Once an association is loaded, reading it again returns the same targets
      without touching the database, even after the record was marked strict. */
  lemma LoadedAssociationIsCached(defaults: StrictDefaults, rec: Record, refl: Reflection, db: Db)
    requires ReadAssociation(defaults, rec, refl, db).Returned?
    ensures var (rec', targets) := ReadAssociation(defaults, rec, refl, db).value;
      && ReadAssociation(defaults, MarkStrict(rec'), refl, db) == Returned((MarkStrict(rec'), targets))
      && ReadAssociation(defaults, rec', refl, db) == Returned((rec', targets))
  {
    var (rec', targets) := ReadAssociation(defaults, rec, refl, db).value;
    assert MarkStrict(rec').loaded[refl.name] == targets;
    assert rec'.loaded[refl.name := targets] == rec'.loaded;
    assert MarkStrict(rec').loaded[refl.name := targets] == MarkStrict(rec').loaded;
  }

  /** Setting `strict_loading_by_default` on a class and then putting back the
      value it read leaves what every class reads unchanged: the class itself,
      its descendants, and classes outside its hierarchy. */
  lemma {:induction false} RestoringDefaultKeepsReadings(defaults: StrictDefaults, cls: ClassChain, prefix: seq<ClassName>)
    requires cls[0] !in prefix
    ensures var restored := defaults[cls[0] := StrictByDefault(defaults, cls)];
      Inherited(prefix + cls, restored, false) == Inherited(prefix + cls, defaults, false)
    decreases |prefix|
  {
    var restored := defaults[cls[0] := StrictByDefault(defaults, cls)];
    if |prefix| == 0 {
      assert prefix + cls == cls;
      if cls[0] !in defaults {
        assert Inherited(cls, restored, false) == restored[cls[0]];
      }
    } else {
      assert (prefix + cls)[0] == prefix[0];
      assert (prefix + cls)[1..] == prefix[1..] + cls;
      RestoringDefaultKeepsReadings(defaults, cls, prefix[1..]);
    }
  }

  /** A class outside the hierarchy of `cls` reads the same value after the
      restore. */
  lemma {:induction false} RestoringDefaultKeepsUnrelatedReadings(defaults: StrictDefaults, cls: ClassChain, other: seq<ClassName>)
    requires cls[0] !in other
    ensures var restored := defaults[cls[0] := StrictByDefault(defaults, cls)];
      Inherited(other, restored, false) == Inherited(other, defaults, false)
    decreases |other|
  {
    if |other| > 0 {
      RestoringDefaultKeepsUnrelatedReadings(defaults, cls, other[1..]);
    }
  }

  /** The write-back leaves every reading unchanged: those of the class and
      its descendants (chains `prefix + cls`) and those of chains not
      containing the class. */
  lemma RestoringKeepsEveryReading(defaults: StrictDefaults, cls: ClassChain)
    ensures var restored := defaults[cls[0] := StrictByDefault(defaults, cls)];
      && (forall prefix :: cls[0] !in prefix ==>
            Inherited(prefix + cls, restored, false) == Inherited(prefix + cls, defaults, false))
      && (forall other :: cls[0] !in other ==> Inherited(other, restored, false) == Inherited(other, defaults, false))
  {
    var restored := defaults[cls[0] := StrictByDefault(defaults, cls)];
    forall prefix | cls[0] !in prefix
      ensures Inherited(prefix + cls, restored, false) == Inherited(prefix + cls, defaults, false)
    {
      RestoringDefaultKeepsReadings(defaults, cls, prefix);
    }
    forall other | cls[0] !in other
      ensures Inherited(other, restored, false) == Inherited(other, defaults, false)
    {
      RestoringDefaultKeepsUnrelatedReadings(defaults, cls, other);
    }
  }

  /** With the base class strict by default, a subclass that sets nothing
      instantiates strict records and one that sets `false` does not; a
      class's own setting decides for it whatever the base says. */
  lemma DefaultInheritanceScenario(defaults: StrictDefaults, base: ClassName, inheriting: ClassName,
                                   overriding: ClassName, own: bool, id: int)
    requires inheriting !in defaults && inheriting != base && inheriting != overriding && overriding != base
    ensures var d := defaults[base := true][overriding := own];
      && Instantiate(d, [inheriting, base], id, false).strict
      && (Instantiate(d, [overriding, base], id, false).strict <==> own)
  {
    var d := defaults[base := true][overriding := own];
    UnsetSubclassInherits(inheriting, [base], d, false);
    OwnSettingOverrides(overriding, [base], defaults[base := true], own, false);
  }
}
