/** The first, in-memory person store (app/contexts/PersonContext.tsx): a list
    of people that `addPerson`, `updatePerson` and `deletePerson` replace, and
    the lookups by id and by CPF. The list operations here are shared with
    the repository-backed store. */
module LegacyPersonStore {
  import opened Optional
  import TypesPerson

  type Person = TypesPerson.Person

  // ---------------------------------------------------------------------
  // The list operations

  /** `persons.find(person => person.id === id)`. */
  function FindById(ps: seq<Person>, id: string): (r: Option<Person>)
    ensures r.None? <==> forall p :: p in ps ==> p.id != Some(id)
    ensures r.Some? ==> r.value in ps && r.value.id == Some(id)
  {
    if ps == [] then None
    else if ps[0].id == Some(id) then Some(ps[0])
    else FindById(ps[1..], id)
  }

  /** `find` returns the first match: no earlier element has the id. */
  lemma {:induction false} FindByIdIsFirst(ps: seq<Person>, id: string)
    requires FindById(ps, id).Some?
    ensures exists k :: 0 <= k < |ps| && ps[k] == FindById(ps, id).value &&
              (forall j :: 0 <= j < k ==> ps[j].id != Some(id))
  {
    if ps[0].id != Some(id) {
      FindByIdIsFirst(ps[1..], id);
      var k :| 0 <= k < |ps[1..]| && ps[1..][k] == FindById(ps[1..], id).value
        && forall j :: 0 <= j < k ==> ps[1..][j].id != Some(id);
      assert ps[k + 1] == FindById(ps, id).value;
      forall j | 0 <= j < k + 1
        ensures ps[j].id != Some(id)
      {
        if j > 0 {
          assert ps[j] == ps[1..][j - 1];
        }
      }
    } else {
      assert ps[0] == FindById(ps, id).value;
    }
  }

  /** `persons.filter(person => person.id !== id)`. */
  function RemoveById(ps: seq<Person>, id: string): (r: seq<Person>)
    ensures |r| <= |ps|
    ensures forall p :: p in r <==> p in ps && p.id != Some(id)
  {
    if ps == [] then []
    else (if ps[0].id == Some(id) then [] else [ps[0]]) + RemoveById(ps[1..], id)
  }

  /** Filtering distributes over concatenation, so the kept elements stay in
      their original order. */
  lemma {:induction false} RemoveByIdConcat(a: seq<Person>, b: seq<Person>, id: string)
    ensures RemoveById(a + b, id) == RemoveById(a, id) + RemoveById(b, id)
  {
    if a == [] {
      assert a + b == b;
    } else {
      assert (a + b)[1..] == a[1..] + b;
      RemoveByIdConcat(a[1..], b, id);
    }
  }

  /** Removing an id that no element carries changes nothing. */
  lemma {:induction false} RemoveAbsentId(ps: seq<Person>, id: string)
    requires forall p :: p in ps ==> p.id != Some(id)
    ensures RemoveById(ps, id) == ps
  {
    if ps != [] {
      RemoveAbsentId(ps[1..], id);
      assert [ps[0]] + ps[1..] == ps;
    }
  }

  /** `persons.map(person => person.id === id ? replacement : person)`. */
  function ReplaceById(ps: seq<Person>, id: string, replacement: Person): (r: seq<Person>)
    ensures |r| == |ps|
    ensures forall i :: 0 <= i < |ps| ==>
      r[i] == if ps[i].id == Some(id) then replacement else ps[i]
  {
    if ps == [] then []
    else [if ps[0].id == Some(id) then replacement else ps[0]] + ReplaceById(ps[1..], id, replacement)
  }

  /** `!persons.some(person => person.cpf === cpf && person.id !== excludeId)`. */
  function CpfUnique(ps: seq<Person>, cpf: string, excludeId: Option<string>): (unique: bool)
    ensures unique <==> forall p :: p in ps ==> p.cpf != cpf || p.id == excludeId
  {
    if ps == [] then true
    else !(ps[0].cpf == cpf && ps[0].id != excludeId) && CpfUnique(ps[1..], cpf, excludeId)
  }

  /** No two people share an id. */
  predicate DistinctIds(ps: seq<Person>) {
    forall i, j :: 0 <= i < j < |ps| && ps[i].id.Some? ==> ps[i].id != ps[j].id
  }

  // ---------------------------------------------------------------------
  // What the list operations promise together

  /** A person just added with CPF c makes c taken for a check with no
      excluded id. */
  lemma AddedCpfTaken(ps: seq<Person>, p: Person, newId: string)
    ensures !CpfUnique(ps + [p.(id := Some(newId))], p.cpf, None)
  {
    assert p.(id := Some(newId)) in ps + [p.(id := Some(newId))];
  }

  /** The CPF check is a raw string comparison: the same number with and
      without its mask counts as different. */
  lemma CpfCheckIsLiteral(p: Person, masked: string, bare: string)
    requires p.cpf == masked && masked == "123.456.789-09" && bare == "12345678909"
    ensures CpfUnique([p], bare, None)
  {
    assert masked != bare by {
      assert |masked| != |bare|;
    }
  }

  /** Excluding the person's own id lets it keep its CPF while editing. */
  lemma OwnCpfAllowedWhenExcluded(ps: seq<Person>, p: Person, id: string)
    requires p.id == Some(id) && DistinctIds(ps + [p])
    ensures CpfUnique(ps + [p], p.cpf, Some(id)) <==> CpfUnique(ps, p.cpf, Some(id))
  {
  }

  /** After a delete the id is not found any more, and everyone else is
      still found as before. */
  lemma {:induction false} DeletedNotFound(ps: seq<Person>, id: string, other: string)
    requires other != id
    ensures FindById(RemoveById(ps, id), id) == None
    ensures FindById(RemoveById(ps, id), other) == FindById(ps, other)
  {
    if ps != [] {
      DeletedNotFound(ps[1..], id, other);
      var r := RemoveById(ps, id);
      if ps[0].id == Some(id) {
        assert r == RemoveById(ps[1..], id);
        assert FindById(ps, other) == FindById(ps[1..], other);
      } else {
        assert r == [ps[0]] + RemoveById(ps[1..], id);
        assert r[0] == ps[0] && r[1..] == RemoveById(ps[1..], id);
        assert FindById(r, id) == FindById(r[1..], id);
      }
    }
  }

  /** After an update the id is found with the new record, provided it was
      present. */
  lemma UpdatedFound(ps: seq<Person>, id: string, replacement: Person)
    requires replacement.id == Some(id) && FindById(ps, id).Some?
    ensures FindById(ReplaceById(ps, id, replacement), id) == Some(replacement)
  {
    var r := ReplaceById(ps, id, replacement);
    FindByIdIsFirst(r, id);
    var k :| 0 <= k < |r| && r[k] == FindById(r, id).value
      && forall j :: 0 <= j < k ==> r[j].id != Some(id);
    assert r[k].id == Some(id);
  }

  lemma DistinctIdsTail(ps: seq<Person>)
    requires DistinctIds(ps) && ps != []
    ensures DistinctIds(ps[1..])
    ensures ps[0].id.Some? ==> forall p :: p in ps[1..] ==> p.id != ps[0].id
  {
    forall i, j | 0 <= i < j < |ps[1..]| && ps[1..][i].id.Some?
      ensures ps[1..][i].id != ps[1..][j].id
    {
      assert ps[1..][i] == ps[i + 1] && ps[1..][j] == ps[j + 1];
    }
  }

  lemma DistinctIdsCons(p: Person, ps: seq<Person>)
    requires DistinctIds(ps)
    requires p.id.Some? ==> forall q :: q in ps ==> q.id != p.id
    ensures DistinctIds([p] + ps)
  {
    var s := [p] + ps;
    forall i, j | 0 <= i < j < |s| && s[i].id.Some?
      ensures s[i].id != s[j].id
    {
      assert s[j] == ps[j - 1];
      if i > 0 {
        assert s[i] == ps[i - 1];
      }
    }
  }

  /** Deleting keeps ids distinct. */
  lemma {:induction false} RemoveKeepsDistinct(ps: seq<Person>, id: string)
    requires DistinctIds(ps)
    ensures DistinctIds(RemoveById(ps, id))
  {
    if ps != [] {
      DistinctIdsTail(ps);
      RemoveKeepsDistinct(ps[1..], id);
      if ps[0].id != Some(id) {
        DistinctIdsCons(ps[0], RemoveById(ps[1..], id));
      } else {
        assert RemoveById(ps, id) == RemoveById(ps[1..], id);
      }
    }
  }

  /** Updating keeps ids distinct: at most one person had the id, and the
      replacement carries it. */
  lemma ReplaceKeepsDistinct(ps: seq<Person>, id: string, replacement: Person)
    requires DistinctIds(ps) && replacement.id == Some(id)
    ensures DistinctIds(ReplaceById(ps, id, replacement))
  {
  }

  /** Adding under an id nobody has keeps ids distinct. */
  lemma AddKeepsDistinct(ps: seq<Person>, p: Person, newId: string)
    requires DistinctIds(ps) && FindById(ps, newId).None?
    ensures DistinctIds(ps + [p.(id := Some(newId))])
  {
  }

  // ---------------------------------------------------------------------
  // The store

  class Store {
    var persons: seq<Person>

    constructor()
      ensures persons == []
    {
      persons := [];
    }

    /** `addPerson`: the caller's record under the id `Date.now().toString()`,
        which is passed in as `newId`. */
    method AddPerson(p: Person, newId: string)
      modifies this
      ensures persons == old(persons) + [p.(id := Some(newId))]
    {
      persons := persons + [p.(id := Some(newId))];
    }

    /** `updatePerson`: every person with the id becomes the new record with
        its id forced to `id`. */
    method UpdatePerson(id: string, updated: Person)
      modifies this
      ensures persons == ReplaceById(old(persons), id, updated.(id := Some(id)))
    {
      persons := ReplaceById(persons, id, updated.(id := Some(id)));
    }

    /** `deletePerson`. */
    method DeletePerson(id: string)
      modifies this
      ensures persons == RemoveById(old(persons), id)
    {
      persons := RemoveById(persons, id);
    }

    /** `getPersonById`. */
    function GetPersonById(id: string): (r: Option<Person>)
      reads this
      ensures r.None? <==> forall p :: p in persons ==> p.id != Some(id)
      ensures r.Some? ==> r.value in persons && r.value.id == Some(id)
    {
      FindById(persons, id)
    }

    /** `isCPFUnique`. */
    function IsCpfUnique(cpf: string, excludeId: Option<string>): (unique: bool)
      reads this
      ensures unique <==> forall p :: p in persons ==> p.cpf != cpf || p.id == excludeId
    {
      CpfUnique(persons, cpf, excludeId)
    }
  }

  /** Add two people, edit the first, delete the second: the first is found
      with its new name, the second is gone, and the first one's CPF is
      taken except for the first person itself. */
  method StoreScenario(a: Person, b: Person)
    returns (first: Option<Person>, second: Option<Person>, taken: bool, takenForSelf: bool)
    ensures first.Some? && first.value.nome == "Ana Maria" && first.value.id == Some("1")
    ensures second == None
    ensures taken && !takenForSelf
  {
    var store := new Store();
    store.AddPerson(a, "1");
    store.AddPerson(b, "2");
    var before := store.persons;
    store.UpdatePerson("1", a.(nome := "Ana Maria"));
    UpdatedFound(before, "1", a.(nome := "Ana Maria").(id := Some("1")));
    store.DeletePerson("2");
    var updated := ReplaceById(before, "1", a.(nome := "Ana Maria").(id := Some("1")));
    assert updated[0].id == Some("1") && updated[1].id == Some("2");
    assert store.persons == [updated[0]] by {
      assert updated == [updated[0]] + [updated[1]];
      RemoveByIdConcat([updated[0]], [updated[1]], "2");
      assert [updated[1]][1..] == [];
      assert [updated[0]][1..] == [];
    }
    first := store.GetPersonById("1");
    second := store.GetPersonById("2");
    taken := !store.IsCpfUnique(a.cpf, None);
    takenForSelf := !store.IsCpfUnique(a.cpf, Some("1"));
    assert store.persons[0].cpf == a.cpf;
  }
}
