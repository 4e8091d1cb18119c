/** Turning rows that name the two ends of a relationship into relationships
    between known entities.  Both the LLM reply parser and the enhanced
    patterns of deep analysis look each name up in a map from lowercased
    entity names to entities and drop a row unless both names are found;
    the kept rows are numbered by a counter `k` that draws `uuid(k)`. */
module NameResolution {
  import opened Strings
  import opened ExtractionTypes
  import opened PatternEntities

  // ---------------------------------------------------------------------------
  // The name map

  /** The `HashMap` collected from `(lowercased name, entity)` pairs in list
      order: a later entity with the same lowercased name replaces an
      earlier one. */
  function NameMap(entities: seq<Entity>): map<string, Entity> {
    if entities == [] then map[]
    else NameMap(entities[..|entities| - 1])[Lower(entities[|entities| - 1].name) := entities[|entities| - 1]]
  }

  /** `k` is the last position of the list whose lowercased name is `key`. */
  predicate LastWithName(entities: seq<Entity>, key: string, k: int) {
    0 <= k < |entities| && Lower(entities[k].name) == key &&
    forall j :: k < j < |entities| ==> Lower(entities[j].name) != key
  }

  /** A name resolves iff some entity has it (ignoring case), and it resolves
      to the last such entity. */
  lemma {:induction false} NameMapLookup(entities: seq<Entity>, key: string)
    ensures key in NameMap(entities) <==> exists k :: 0 <= k < |entities| && Lower(entities[k].name) == key
    ensures key in NameMap(entities) ==> exists k :: LastWithName(entities, key, k) && NameMap(entities)[key] == entities[k]
  {
    if entities != [] {
      var n := |entities| - 1;
      var init := entities[..n];
      NameMapLookup(init, key);
      if Lower(entities[n].name) == key {
        assert LastWithName(entities, key, n);
      } else {
        if key in NameMap(init) {
          var k :| LastWithName(init, key, k) && NameMap(init)[key] == init[k];
          assert LastWithName(entities, key, k) by {
            forall j | k < j < |entities| ensures Lower(entities[j].name) != key {
              if j < n {
                assert entities[j] == init[j];
              }
            }
          }
        }
        if exists k :: 0 <= k < |entities| && Lower(entities[k].name) == key {
          var k :| 0 <= k < |entities| && Lower(entities[k].name) == key;
          assert init[k] == entities[k];
        }
      }
    }
  }

  /** Every entity the map holds is one of the list. */
  lemma NameMapValues(entities: seq<Entity>, key: string)
    requires key in NameMap(entities)
    ensures NameMap(entities)[key] in entities
    ensures NameMap(entities)[key].id in EntityIds(entities)
  {
    NameMapLookup(entities, key);
  }

  // ---------------------------------------------------------------------------
  // Rows and their resolution

  /** A relationship row: the names of its two ends (already in the case
      used by the map's keys), its type, label and confidence. */
  datatype NamedRow = NamedRow(from: string, to: string, relationshipType: RelationshipType,
                               labelText: string, confidence: real)

  predicate Resolves(names: map<string, Entity>, row: NamedRow) {
    row.from in names && row.to in names
  }

  /** The relationship a resolving row makes, from the entity its first name
      resolves to, to the entity its second name resolves to. */
  function ResolvedRelationship(names: map<string, Entity>, id: string, row: NamedRow): Relationship
    requires Resolves(names, row)
  {
    Relationship(id, names[row.from].id, names[row.to].id, row.relationshipType, row.labelText,
                 row.confidence, None)
  }

  /** The rows whose two names resolve, in order. */
  function Resolvable(names: map<string, Entity>, rows: seq<NamedRow>): (kept: seq<NamedRow>)
    ensures |kept| <= |rows|
    ensures forall k :: 0 <= k < |kept| ==> Resolves(names, kept[k]) && kept[k] in rows
  {
    if rows == [] then []
    else
      var init := Resolvable(names, rows[..|rows| - 1]);
      if Resolves(names, rows[|rows| - 1]) then init + [rows[|rows| - 1]] else init
  }

  /** A row is kept iff both of its names resolve. */
  lemma {:induction false} ResolvableMembers(names: map<string, Entity>, rows: seq<NamedRow>, row: NamedRow)
    ensures row in Resolvable(names, rows) <==> row in rows && Resolves(names, row)
  {
    if rows != [] {
      var n := |rows| - 1;
      ResolvableMembers(names, rows[..n], row);
      assert rows == rows[..n] + [rows[n]];
    }
  }

  /** The `k`-th kept row becomes a relationship with identifier `uuid(next + k)`. */
  function Numbered(names: map<string, Entity>, uuid: nat -> string, next: nat, rows: seq<NamedRow>): seq<Relationship>
    requires forall k :: 0 <= k < |rows| ==> Resolves(names, rows[k])
  {
    seq(|rows|, k requires 0 <= k < |rows| => ResolvedRelationship(names, uuid(next + k), rows[k]))
  }

  /** What the resolution walk produces from `rows`. */
  function ResolvedRows(names: map<string, Entity>, uuid: nat -> string, next: nat, rows: seq<NamedRow>): seq<Relationship> {
    Numbered(names, uuid, next, Resolvable(names, rows))
  }

  /** The walk so far: the relationships made from the kept rows of a prefix. */
  predicate NumberedSoFar(relationships: seq<Relationship>, names: map<string, Entity>, uuid: nat -> string,
                          next: nat, kept: seq<NamedRow>) {
    |relationships| == |kept| &&
    forall k :: 0 <= k < |kept| ==>
      Resolves(names, kept[k]) && relationships[k] == ResolvedRelationship(names, uuid(next + k), kept[k])
  }

  lemma ResolveStep(names: map<string, Entity>, uuid: nat -> string, next0: nat, rows: seq<NamedRow>, i: nat,
                    relationships: seq<Relationship>)
    requires i < |rows|
    requires NumberedSoFar(relationships, names, uuid, next0, Resolvable(names, rows[..i]))
    ensures Resolves(names, rows[i]) ==>
      NumberedSoFar(relationships + [ResolvedRelationship(names, uuid(next0 + |relationships|), rows[i])],
                    names, uuid, next0, Resolvable(names, rows[..i + 1]))
    ensures !Resolves(names, rows[i]) ==>
      NumberedSoFar(relationships, names, uuid, next0, Resolvable(names, rows[..i + 1]))
  {
    PrefixSnoc(rows, i);
  }

  /** The loop shared by both row sources: look both names up, skip the row
      unless both are found, otherwise push a relationship with the next
      identifier. */
  method ResolveRows(names: map<string, Entity>, uuid: nat -> string, next0: nat, rows: seq<NamedRow>)
    returns (relationships: seq<Relationship>, next: nat)
    ensures relationships == ResolvedRows(names, uuid, next0, rows)
    ensures next == next0 + |relationships|
  {
    relationships, next := [], next0;
    var i := 0;
    while i < |rows|
      invariant i <= |rows|
      invariant NumberedSoFar(relationships, names, uuid, next0, Resolvable(names, rows[..i]))
      invariant next == next0 + |relationships|
    {
      ResolveStep(names, uuid, next0, rows, i, relationships);
      var row := rows[i];
      if row.from in names && row.to in names {
        var source := names[row.from];
        var target := names[row.to];
        var r := Relationship(uuid(next), source.id, target.id, row.relationshipType, row.labelText, row.confidence, None);
        assert r == ResolvedRelationship(names, uuid(next0 + |relationships|), rows[i]);
        relationships := relationships + [r];
        next := next + 1;
      }
      i := i + 1;
    }
    assert rows[..i] == rows;
    NumberedSoFarIs(relationships, names, uuid, next0, Resolvable(names, rows));
  }

  lemma NumberedSoFarIs(relationships: seq<Relationship>, names: map<string, Entity>, uuid: nat -> string,
                        next: nat, kept: seq<NamedRow>)
    requires NumberedSoFar(relationships, names, uuid, next, kept)
    ensures forall k :: 0 <= k < |kept| ==> Resolves(names, kept[k])
    ensures relationships == Numbered(names, uuid, next, kept)
  {
  }

  /** Every relationship made from rows resolved in the map of `entities`
      joins two entities of the list, the ones its row names resolve to,
      and carries the row's type, label and confidence; the identifiers are
      pairwise different when the identifier source never repeats. */
  lemma ResolvedRowsSound(entities: seq<Entity>, uuid: nat -> string, next: nat, rows: seq<NamedRow>)
    ensures |ResolvedRows(NameMap(entities), uuid, next, rows)| <= |rows|
    ensures forall k :: 0 <= k < |ResolvedRows(NameMap(entities), uuid, next, rows)| ==>
      JoinsListed(ResolvedRows(NameMap(entities), uuid, next, rows)[k], entities)
    ensures InjectiveIds(uuid) ==>
      forall i, j :: 0 <= i < j < |ResolvedRows(NameMap(entities), uuid, next, rows)| ==>
        ResolvedRows(NameMap(entities), uuid, next, rows)[i].id != ResolvedRows(NameMap(entities), uuid, next, rows)[j].id
  {
    var names := NameMap(entities);
    var kept := Resolvable(names, rows);
    var rs := ResolvedRows(names, uuid, next, rows);
    forall k | 0 <= k < |rs| ensures JoinsListed(rs[k], entities) {
      NameMapValues(entities, kept[k].from);
      NameMapValues(entities, kept[k].to);
    }
  }

  /** A relationship between two entities of the list, without a position. */
  predicate JoinsListed(r: Relationship, entities: seq<Entity>) {
    r.sourceEntityId in EntityIds(entities) && r.targetEntityId in EntityIds(entities) && r.position.None?
  }

  /** Every relationship comes from one of the rows, resolved with the
      identifier its place in the output draws. */
  lemma ResolvedRowsFrom(names: map<string, Entity>, uuid: nat -> string, next: nat, rows: seq<NamedRow>, k: nat)
    requires k < |ResolvedRows(names, uuid, next, rows)|
    ensures exists m :: (0 <= m < |rows| && Resolves(names, rows[m]) &&
                         ResolvedRows(names, uuid, next, rows)[k] == ResolvedRelationship(names, uuid(next + k), rows[m]))
  {
    var kept := Resolvable(names, rows);
    assert kept[k] in rows;
    var m :| 0 <= m < |rows| && rows[m] == kept[k];
  }

  /** A row whose custom type is its own label. */
  predicate SelfLabelled(row: NamedRow) {
    row.relationshipType == OtherRelationship(row.labelText)
  }

  /** Rows that all carry their label as their custom type make
      relationships that do too. */
  lemma ResolvedRowsSelfLabelled(names: map<string, Entity>, uuid: nat -> string, next: nat, rows: seq<NamedRow>)
    requires forall k :: 0 <= k < |rows| ==> SelfLabelled(rows[k])
    ensures forall k :: 0 <= k < |ResolvedRows(names, uuid, next, rows)| ==>
      ResolvedRows(names, uuid, next, rows)[k].relationshipType ==
        OtherRelationship(ResolvedRows(names, uuid, next, rows)[k].labelText)
  {
    var kept := Resolvable(names, rows);
    forall k | 0 <= k < |kept| ensures SelfLabelled(kept[k]) {
      assert kept[k] in rows;
    }
  }
}
