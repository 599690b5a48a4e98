/** Two valid IRs have one canonical form exactly when they differ in declaration order only. */
module IrCanonical {
  import opened Seqs
  import opened Strings
  import opened Json
  import opened Document
  import opened SchemaIr
  import JsonText

  // ----- declaration order -----

  datatype EntityBag = EntityBag(
    name: string, table: string, fields: multiset<IrField>, primaryKey: seq<string>,
    uniqueKeys: multiset<seq<string>>, indexes: multiset<seq<string>>, foreignKeys: multiset<IrForeign>)

  function BagOf(e: Entity): EntityBag {
    EntityBag(e.name, e.table, multiset(e.fields), e.primaryKey, multiset(e.uniqueKeys), multiset(e.indexes),
              multiset(e.foreignKeys))
  }

  /** The same declarations; only the order of entities, fields, keys, indexes and foreign keys differs. */
  ghost predicate Reordering(a: Ir, b: Ir) {
    a.databaseSchema == b.databaseSchema && Perm(Map(BagOf, a.entities), Map(BagOf, b.entities))
  }

  // ----- sort keys identify what they sort -----

  lemma FieldPlain(s: string)
    requires FieldIdentifier(s) || EntityIdentifier(s)
    ensures JsonText.Plain(s)
  {
  }

  lemma KeyPlain(key: seq<string>)
    requires forall n | n in key :: FieldIdentifier(n)
    ensures JsonText.PlainTerm(JsonText.List(JsonText.Texts(key)))
  {
    forall x | x in JsonText.Texts(key) ensures JsonText.PlainTerm(x) {
      var i :| 0 <= i < |key| && JsonText.Texts(key)[i] == x;
      assert key[i] in key;
      FieldPlain(key[i]);
    }
  }

  lemma KeyTextInjective(a: seq<string>, b: seq<string>)
    requires forall n | n in a :: FieldIdentifier(n)
    requires forall n | n in b :: FieldIdentifier(n)
    ensures KeyText(a) == KeyText(b) <==> a == b
  {
    KeyPlain(a);
    KeyPlain(b);
    JsonText.PrintInjective(JsonText.List(JsonText.Texts(a)), JsonText.List(JsonText.Texts(b)));
    if KeyText(a) == KeyText(b) {
      JsonText.TextsInjective(a, b);
    }
  }

  predicate ForeignPlain(k: IrForeign) {
    (forall n | n in k.fields :: FieldIdentifier(n)) && EntityIdentifier(k.entity) &&
    (forall n | n in k.targetFields :: FieldIdentifier(n))
  }

  lemma RelationTermPlain(k: IrForeign)
    requires ForeignPlain(k)
    ensures JsonText.PlainTerm(RelationTerm(k))
  {
    KeyPlain(k.targetFields);
    FieldPlain(k.entity);
    assert JsonText.Plain("entity") && JsonText.Plain("fields");
  }

  lemma ForeignTermPlain(k: IrForeign)
    requires ForeignPlain(k)
    ensures JsonText.PlainTerm(ForeignTerm(k))
  {
    KeyPlain(k.fields);
    RelationTermPlain(k);
    ActionPlain(k.onDelete);
    ThreePlain(JsonText.List(JsonText.Texts(k.fields)), RelationTerm(k), JsonText.Text(IrActionText(k.onDelete)));
  }

  lemma ActionPlain(a: IrAction)
    ensures JsonText.Plain(IrActionText(a))
  {
  }

  lemma ThreePlain(a: JsonText.Term, b: JsonText.Term, c: JsonText.Term)
    requires JsonText.PlainTerm(a) && JsonText.PlainTerm(b) && JsonText.PlainTerm(c)
    ensures JsonText.PlainTerm(JsonText.Record([JsonText.Entry("fields", a), JsonText.Entry("references", b), JsonText.Entry("onDelete", c)]))
  {
    assert JsonText.Plain("fields") && JsonText.Plain("references") && JsonText.Plain("onDelete");
  }

  lemma IrActionTextInjective(a: IrAction, b: IrAction)
    requires IrActionText(a) == IrActionText(b)
    ensures a == b
  {
    assert IrActionText(NoAction)[0] == 'n' && IrActionText(RestrictDelete)[0] == 'r';
    assert IrActionText(CascadeDelete)[0] == 'c' && IrActionText(SetNullOnDelete)[0] == 's';
  }

  lemma RelationTermInjective(a: IrForeign, b: IrForeign)
    requires RelationTerm(a) == RelationTerm(b)
    ensures a.entity == b.entity && a.targetFields == b.targetFields
  {
    assert RelationTerm(a).entries[0] == RelationTerm(b).entries[0];
    assert RelationTerm(a).entries[1] == RelationTerm(b).entries[1];
    JsonText.TextsInjective(a.targetFields, b.targetFields);
  }

  lemma ForeignTextInjective(a: IrForeign, b: IrForeign)
    requires ForeignPlain(a) && ForeignPlain(b) && ForeignText(a) == ForeignText(b)
    ensures a == b
  {
    ForeignTermPlain(a);
    ForeignTermPlain(b);
    JsonText.PrintInjective(ForeignTerm(a), ForeignTerm(b));
    var (x, y) := (ForeignTerm(a).entries, ForeignTerm(b).entries);
    assert x[0] == y[0] && x[1] == y[1] && x[2] == y[2];
    JsonText.TextsInjective(a.fields, b.fields);
    RelationTermInjective(a, b);
    IrActionTextInjective(a.onDelete, b.onDelete);
  }

  lemma FieldsKnown(e: Entity, n: string)
    requires forall f | f in e.fields :: IrFieldOk(f)
    requires n in IrFields(e)
    ensures FieldIdentifier(n)
  {
    IndexByKeys(NameOfIrField, e.fields);
  }

  lemma TupleIdentifiers(e: Entity, key: seq<string>)
    requires forall f | f in e.fields :: IrFieldOk(f)
    requires TupleOk(key, IrFields(e))
    ensures forall n | n in key :: FieldIdentifier(n)
  {
    forall n | n in key ensures FieldIdentifier(n) {
      FieldsKnown(e, n);
    }
  }

  // ----- one entity: its rules and its canonical form do not see the order -----

  lemma IrFieldsAgree(e: Entity, e': Entity)
    requires BagOf(e) == BagOf(e') && NoDup(Map(NameOfIrField, e.fields))
    ensures IrFields(e) == IrFields(e')
  {
    IndexByOrderBlind(NameOfIrField, e.fields, e'.fields);
  }

  lemma KeysPerm(e: Entity, e': Entity)
    requires BagOf(e) == BagOf(e')
    ensures Perm(EntityKeys(e), EntityKeys(e'))
  {
  }

  lemma DistinctCarries<A, B>(f: A -> B, a: seq<A>, b: seq<A>)
    requires Perm(a, b) && NoDup(Map(f, a))
    ensures NoDup(Map(f, b))
  {
    MapPerm(f, a, b);
    PermNoDup(Map(f, a), Map(f, b));
  }

  lemma EntityOkCarries(e: Entity, e': Entity)
    requires EntityOk(e) && BagOf(e) == BagOf(e')
    ensures EntityOk(e')
  {
    IrFieldsAgree(e, e');
    PermMembers(e.fields, e'.fields);
    PermMembers(e.uniqueKeys, e'.uniqueKeys);
    PermMembers(e.indexes, e'.indexes);
    PermMembers(e.foreignKeys, e'.foreignKeys);
    KeysPerm(e, e');
    DistinctCarries(NameOfIrField, e.fields, e'.fields);
    DistinctCarries(ColumnOfIrField, e.fields, e'.fields);
    DistinctCarries(SortedKeyText, EntityKeys(e), EntityKeys(e'));
    DistinctCarries(KeyText, e.indexes, e'.indexes);
    DistinctCarries(RelationText, e.foreignKeys, e'.foreignKeys);
  }

  lemma KeyListsAgree(e: Entity, a: seq<seq<string>>, b: seq<seq<string>>)
    requires Perm(a, b) && (forall f | f in e.fields :: IrFieldOk(f)) && forall k | k in a :: TupleOk(k, IrFields(e))
    ensures SortBy(KeyText, a) == SortBy(KeyText, b)
  {
    forall x, y | x in a && y in a && KeyText(x) == KeyText(y) ensures x == y {
      TupleIdentifiers(e, x);
      TupleIdentifiers(e, y);
      KeyTextInjective(x, y);
    }
    SortByOrderBlind(KeyText, a, b);
  }

  lemma ForeignListsAgree(e: Entity, a: seq<IrForeign>, b: seq<IrForeign>)
    requires Perm(a, b) && (forall f | f in e.fields :: IrFieldOk(f)) && forall k | k in a :: IrForeignOk(k, IrFields(e))
    ensures SortBy(ForeignText, a) == SortBy(ForeignText, b)
  {
    forall x, y | x in a && y in a && ForeignText(x) == ForeignText(y) ensures x == y {
      TupleIdentifiers(e, x.fields);
      TupleIdentifiers(e, y.fields);
      ForeignTextInjective(x, y);
    }
    SortByOrderBlind(ForeignText, a, b);
  }

  lemma FieldListsAgree(a: seq<IrField>, b: seq<IrField>)
    requires Perm(a, b) && NoDup(Map(NameOfIrField, a))
    ensures SortBy(NameOfIrField, a) == SortBy(NameOfIrField, b)
  {
    forall x, y | x in a && y in a && NameOfIrField(x) == NameOfIrField(y) ensures x == y {
      KeyInjective(NameOfIrField, a, x, y);
    }
    SortByOrderBlind(NameOfIrField, a, b);
  }

  lemma CanonAgrees(e: Entity, e': Entity)
    requires EntityOk(e) && BagOf(e) == BagOf(e')
    ensures CanonEntity(e) == CanonEntity(e')
  {
    FieldListsAgree(e.fields, e'.fields);
    KeyListsAgree(e, e.uniqueKeys, e'.uniqueKeys);
    KeyListsAgree(e, e.indexes, e'.indexes);
    ForeignListsAgree(e, e.foreignKeys, e'.foreignKeys);
  }

  /** The canonical form lists the same declarations. */
  lemma CanonKeepsBag(e: Entity)
    ensures BagOf(CanonEntity(e)) == BagOf(e)
  {
    SortByCorrect(NameOfIrField, e.fields);
    SortByCorrect(KeyText, e.uniqueKeys);
    SortByCorrect(KeyText, e.indexes);
    SortByCorrect(ForeignText, e.foreignKeys);
  }

  lemma CanonTellsBag(e: Entity, e': Entity)
    requires EntityOk(e)
    ensures CanonEntity(e) == CanonEntity(e') <==> BagOf(e) == BagOf(e')
  {
    CanonKeepsBag(e);
    CanonKeepsBag(e');
    if BagOf(e) == BagOf(e') {
      CanonAgrees(e, e');
    }
  }

  // ----- a whole IR -----

  lemma Counterpart(a: seq<Entity>, b: seq<Entity>, e': Entity) returns (e: Entity)
    requires Perm(Map(BagOf, a), Map(BagOf, b)) && e' in b
    ensures e in a && BagOf(e) == BagOf(e')
  {
    MapIn(BagOf, b, e');
    PermMembers(Map(BagOf, a), Map(BagOf, b));
    e := MapInInverse(BagOf, a, BagOf(e'));
  }

  lemma NamesDistinct(entities: seq<Entity>)
    requires NoDup(Map(LowerName, entities))
    ensures NoDup(Map(NameOfEntity, entities))
  {
    forall i, j | 0 <= i < j < |entities| ensures entities[i].name != entities[j].name {
      assert Map(LowerName, entities)[i] != Map(LowerName, entities)[j];
    }
  }

  /** What a bag decides is carried over to the other list. */
  lemma BagDecides<T>(f: Entity -> T, a: seq<Entity>, b: seq<Entity>)
    requires Perm(Map(BagOf, a), Map(BagOf, b))
    requires forall e, e' | e in a && e' in b && BagOf(e) == BagOf(e') :: f(e) == f(e')
    ensures Perm(Map(f, a), Map(f, b))
  {
    assert Decides(BagOf, f, a, b);
    MapDecides(BagOf, f, a, b);
  }

  ghost predicate SameEntities(a: map<string, Entity>, b: map<string, Entity>) {
    a.Keys == b.Keys && forall n | n in a :: BagOf(a[n]) == BagOf(b[n])
  }

  lemma SameName(a: seq<Entity>, b: seq<Entity>, e: Entity, e': Entity)
    requires Perm(Map(BagOf, a), Map(BagOf, b)) && NoDup(Map(NameOfEntity, a))
    requires e in a && e' in b && e.name == e'.name
    ensures BagOf(e) == BagOf(e')
  {
    var c := Counterpart(a, b, e');
    KeyInjective(NameOfEntity, a, c, e);
  }

  lemma EntityMapsAgree(a: seq<Entity>, b: seq<Entity>)
    requires Perm(Map(BagOf, a), Map(BagOf, b)) && NoDup(Map(NameOfEntity, a))
    ensures NoDup(Map(NameOfEntity, b)) && SameEntities(Entities(a), Entities(b))
  {
    NamesAgree(a, b);
    IndexByKeys(NameOfEntity, a);
    IndexByKeys(NameOfEntity, b);
    forall n | n in Entities(a) ensures BagOf(Entities(a)[n]) == BagOf(Entities(b)[n]) {
      SameName(a, b, Entities(a)[n], Entities(b)[n]);
    }
  }

  lemma NamesAgree(a: seq<Entity>, b: seq<Entity>)
    requires Perm(Map(BagOf, a), Map(BagOf, b)) && NoDup(Map(NameOfEntity, a))
    ensures NoDup(Map(NameOfEntity, b)) && ToSet(Map(NameOfEntity, a)) == ToSet(Map(NameOfEntity, b))
  {
    BagDecides(NameOfEntity, a, b);
    PermNoDup(Map(NameOfEntity, a), Map(NameOfEntity, b));
    PermMembers(Map(NameOfEntity, a), Map(NameOfEntity, b));
  }

  lemma ReferenceCarries(fields: map<string, IrField>, k: IrForeign, t: Entity, t': Entity)
    requires IrReferenceOk(fields, k, t) && EntityOk(t) && BagOf(t) == BagOf(t')
    ensures IrReferenceOk(fields, k, t')
  {
    IrFieldsAgree(t, t');
    KeysPerm(t, t');
    PermMembers(EntityKeys(t), EntityKeys(t'));
  }

  lemma ReferencesCarry(e: Entity, e': Entity, m: map<string, Entity>, m': map<string, Entity>)
    requires EntityOk(e) && BagOf(e) == BagOf(e') && SameEntities(m, m')
    requires (forall n | n in m :: EntityOk(m[n])) && IrReferencesOk(e, m)
    ensures IrReferencesOk(e', m')
  {
    IrFieldsAgree(e, e');
    PermMembers(e.foreignKeys, e'.foreignKeys);
    forall k | k in e'.foreignKeys ensures k.entity in m' && IrReferenceOk(IrFields(e'), k, m'[k.entity]) {
      ReferenceCarries(IrFields(e), k, m[k.entity], m'[k.entity]);
    }
  }

  lemma MappedOk(entities: seq<Entity>)
    requires forall e | e in entities :: EntityOk(e)
    ensures forall n | n in Entities(entities) :: EntityOk(Entities(entities)[n])
  {
    IndexByKeys(NameOfEntity, entities);
  }

  lemma EntitiesCarry(a: seq<Entity>, b: seq<Entity>)
    requires Perm(Map(BagOf, a), Map(BagOf, b)) && forall e | e in a :: EntityOk(e)
    ensures forall e | e in b :: EntityOk(e)
  {
    forall e' | e' in b ensures EntityOk(e') {
      var e := Counterpart(a, b, e');
      EntityOkCarries(e, e');
    }
  }

  lemma SameCount(a: seq<Entity>, b: seq<Entity>)
    requires Perm(Map(BagOf, a), Map(BagOf, b))
    ensures |a| == |b|
  {
    PermMembers(Map(BagOf, a), Map(BagOf, b));
  }

  lemma AllReferencesCarry(a: seq<Entity>, b: seq<Entity>)
    requires Perm(Map(BagOf, a), Map(BagOf, b)) && NoDup(Map(NameOfEntity, a)) && forall e | e in a :: EntityOk(e)
    requires forall e | e in a :: IrReferencesOk(e, Entities(a))
    ensures forall e | e in b :: IrReferencesOk(e, Entities(b))
  {
    EntityMapsAgree(a, b);
    MappedOk(a);
    forall e' | e' in b ensures IrReferencesOk(e', Entities(b)) {
      var e := Counterpart(a, b, e');
      ReferencesCarry(e, e', Entities(a), Entities(b));
    }
  }

  /** Whether an IR is valid does not depend on declaration order. */
  lemma ValidityIsOrderBlind(a: Ir, b: Ir)
    requires Reordering(a, b) && IrOk(a)
    ensures IrOk(b)
  {
    EntitiesCarry(a.entities, b.entities);
    SameCount(a.entities, b.entities);
    NamesDistinct(a.entities);
    BagDecides(LowerName, a.entities, b.entities);
    PermNoDup(Map(LowerName, a.entities), Map(LowerName, b.entities));
    BagDecides(TableOfEntity, a.entities, b.entities);
    PermNoDup(Map(TableOfEntity, a.entities), Map(TableOfEntity, b.entities));
    AllReferencesCarry(a.entities, b.entities);
  }

  lemma CanonNames(entities: seq<Entity>)
    ensures Map(NameOfEntity, Map(CanonEntity, entities)) == Map(NameOfEntity, entities)
  {
  }

  lemma CanonListsAgree(a: seq<Entity>, b: seq<Entity>)
    requires NoDup(Map(NameOfEntity, a))
    ensures Perm(Map(CanonEntity, a), Map(CanonEntity, b)) <==>
              SortBy(NameOfEntity, Map(CanonEntity, a)) == SortBy(NameOfEntity, Map(CanonEntity, b))
  {
    var (x, y) := (Map(CanonEntity, a), Map(CanonEntity, b));
    SortByCorrect(NameOfEntity, x);
    SortByCorrect(NameOfEntity, y);
    CanonNames(a);
    if Perm(x, y) {
      forall e, e' | e in x && e' in x && NameOfEntity(e) == NameOfEntity(e') ensures e == e' {
        KeyInjective(NameOfEntity, x, e, e');
      }
      SortByOrderBlind(NameOfEntity, x, y);
    }
  }

  /**
   * The canonical form of a valid IR is the same for all its reorderings and for nothing else.
   */
  lemma CanonicalFormIsUnique(a: Ir, b: Ir)
    requires IrOk(a) && IrOk(b)
    ensures Canonical(a) == Canonical(b) <==> Reordering(a, b)
  {
    NamesDistinct(a.entities);
    CanonListsAgree(a.entities, b.entities);
    forall e, e' | e in a.entities && e' in b.entities ensures CanonEntity(e) == CanonEntity(e') <==> BagOf(e) == BagOf(e') {
      CanonTellsBag(e, e');
    }
    if Perm(Map(CanonEntity, a.entities), Map(CanonEntity, b.entities)) {
      assert Decides(CanonEntity, BagOf, a.entities, b.entities);
      MapDecides(CanonEntity, BagOf, a.entities, b.entities);
    }
    if Perm(Map(BagOf, a.entities), Map(BagOf, b.entities)) {
      BagDecides(CanonEntity, a.entities, b.entities);
    }
  }

  /** The canonical form is a reordering, so it is valid and its own canonical form. */
  lemma CanonicalIsFixed(ir: Ir)
    requires IrOk(ir)
    ensures Reordering(ir, Canonical(ir)) && IrOk(Canonical(ir)) && Canonical(Canonical(ir)) == Canonical(ir)
  {
    var canon := Map(CanonEntity, ir.entities);
    SortByCorrect(NameOfEntity, canon);
    MapPerm(BagOf, canon, SortBy(NameOfEntity, canon));
    forall i | 0 <= i < |canon| ensures BagOf(canon[i]) == BagOf(ir.entities[i]) {
      CanonKeepsBag(ir.entities[i]);
    }
    assert Map(BagOf, canon) == Map(BagOf, ir.entities);
    ValidityIsOrderBlind(ir, Canonical(ir));
    CanonicalFormIsUnique(ir, Canonical(ir));
  }

  /** Accepted inputs that differ in declaration order only normalise to one value. */
  lemma NormalizeIsOrderBlind(i: Json, j: Json)
    requires IrShape(i) && IrShape(j) && Reordering(ReadIr(i), ReadIr(j))
    ensures Normalize(i) == Normalize(j)
  {
    var (a, b) := (ReadIr(i), ReadIr(j));
    if IrOk(a) {
      ValidityIsOrderBlind(a, b);
      CanonicalFormIsUnique(a, b);
    }
    if IrOk(b) {
      assert Reordering(b, a);
      ValidityIsOrderBlind(b, a);
    }
  }
}
