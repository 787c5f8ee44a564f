/** The repository-backed person store
    (app/controllers/contexts/PersonContext.tsx). Every awaited repository
    call is split in two: the method that starts it, and the method that
    receives its outcome (`Ok` with the resolved value, or `Failed`). The
    list operations and the lookups are those of the in-memory store. */
module PersonStore {
  import opened Optional
  import opened Text
  import TypesPerson
  import LegacyPersonStore

  type Person = TypesPerson.Person

  class Store {
    var persons: seq<Person>
    var searchLoading: bool
    var initialLoading: bool
    /** The `loading` flag of the request helper that wraps `getPeople`:
        set while that request is pending. */
    var apiLoading: bool

    /** The state before the mount effect starts the first load. */
    constructor()
      ensures persons == [] && !searchLoading && initialLoading && !apiLoading
    {
      persons := [];
      searchLoading := false;
      initialLoading := true;
      apiLoading := false;
    }

    /** The exposed `loading`. */
    function Loading(): bool
      reads this
    {
      apiLoading || initialLoading
    }

    /** `loadPersons`, up to the awaited `getPeople`. */
    method BeginLoad()
      modifies this
      ensures apiLoading
      ensures persons == old(persons) && searchLoading == old(searchLoading)
      ensures initialLoading == old(initialLoading)
    {
      apiLoading := true;
    }

    /** `loadPersons` once `getPeople` settles: the list is replaced on
        success and kept on failure; either way the initial load is over. */
    method FinishLoad(result: Outcome<seq<Person>>)
      modifies this
      ensures result.Ok? ==> persons == result.value
      ensures result.Failed? ==> persons == old(persons)
      ensures !apiLoading && !initialLoading && !Loading()
      ensures searchLoading == old(searchLoading)
    {
      apiLoading := false;
      if result.Ok? {
        persons := result.value;
      }
      initialLoading := false;
    }

    /** `searchPeople`, up to its first await. A blank query starts a full
        reload instead of a search; `blank` tells the caller which. */
    method BeginSearch(query: string) returns (blank: bool)
      modifies this
      ensures blank <==> IsBlank(query)
      ensures blank ==> apiLoading && searchLoading == old(searchLoading)
      ensures !blank ==> searchLoading && apiLoading == old(apiLoading)
      ensures persons == old(persons) && initialLoading == old(initialLoading)
    {
      blank := IsBlank(query);
      if blank {
        BeginLoad();
        return;
      }
      searchLoading := true;
    }

    /** `searchPeople` once the search settles. Results replace the list
        wholesale; a failed search falls back to a full reload, whose own
        outcome is `reload`. The search spinner is off afterwards. */
    method FinishSearch(result: Outcome<seq<Person>>, reload: Outcome<seq<Person>>)
      modifies this
      ensures result.Ok? ==> persons == result.value
      ensures result.Ok? ==> apiLoading == old(apiLoading) && initialLoading == old(initialLoading)
      ensures result.Failed? && reload.Ok? ==> persons == reload.value
      ensures result.Failed? && reload.Failed? ==> persons == old(persons)
      ensures result.Failed? ==> !apiLoading && !initialLoading
      ensures !searchLoading
    {
      if result.Ok? {
        persons := result.value;
      } else {
        BeginLoad();
        FinishLoad(reload);
      }
      searchLoading := false;
    }

    /** `addPerson` once `createPerson` settles: the created record is
        appended; a failure is re-thrown (`ok` is false) and the list kept. */
    method AddPerson(created: Outcome<Person>) returns (ok: bool)
      modifies this
      ensures ok <==> created.Ok?
      ensures ok ==> persons == old(persons) + [created.value]
      ensures !ok ==> persons == old(persons)
      ensures searchLoading == old(searchLoading) && initialLoading == old(initialLoading)
      ensures apiLoading == old(apiLoading)
    {
      if created.Failed? {
        return false;
      }
      persons := persons + [created.value];
      return true;
    }

    /** `updatePerson` once the repository settles: every person with the id
        becomes the returned record as it is (its id is not forced). */
    method UpdatePerson(id: string, updated: Outcome<Person>) returns (ok: bool)
      modifies this
      ensures ok <==> updated.Ok?
      ensures ok ==> persons == LegacyPersonStore.ReplaceById(old(persons), id, updated.value)
      ensures !ok ==> persons == old(persons)
      ensures searchLoading == old(searchLoading) && initialLoading == old(initialLoading)
      ensures apiLoading == old(apiLoading)
    {
      if updated.Failed? {
        return false;
      }
      persons := LegacyPersonStore.ReplaceById(persons, id, updated.value);
      return true;
    }

    /** `deletePerson` once the repository settles: the id is filtered out
        only after the delete succeeded. */
    method DeletePerson(id: string, deleted: Outcome<()>) returns (ok: bool)
      modifies this
      ensures ok <==> deleted.Ok?
      ensures ok ==> persons == LegacyPersonStore.RemoveById(old(persons), id)
      ensures !ok ==> persons == old(persons)
      ensures searchLoading == old(searchLoading) && initialLoading == old(initialLoading)
      ensures apiLoading == old(apiLoading)
    {
      if deleted.Failed? {
        return false;
      }
      persons := LegacyPersonStore.RemoveById(persons, id);
      return true;
    }

    /** `getPersonById`: the in-memory store's lookup. */
    function GetPersonById(id: string): (r: Option<Person>)
      reads this
      ensures r.None? <==> forall p :: p in persons ==> p.id != Some(id)
      ensures r.Some? ==> r.value in persons && r.value.id == Some(id)
    {
      LegacyPersonStore.FindById(persons, id)
    }

    /** `isCPFUnique`: the in-memory store's check. */
    function IsCpfUnique(cpf: string, excludeId: Option<string>): (unique: bool)
      reads this
      ensures unique <==> forall p :: p in persons ==> p.cpf != cpf || p.id == excludeId
    {
      LegacyPersonStore.CpfUnique(persons, cpf, excludeId)
    }
  }

  /** Mount with a failing first load, then a blank search, then a failed
      search whose fallback reload succeeds: loading ends after the first
      load although it failed, the blank query reloads, and the fallback's
      list is what remains, with no spinner left on. */
  method LoadAndSearchScenario(everyone: seq<Person>)
    returns (loadingAfterMount: bool, blankReloads: bool, finalList: seq<Person>, spinner: bool, loading: bool)
    ensures !loadingAfterMount && blankReloads
    ensures finalList == everyone && !spinner && !loading
  {
    var store := new Store();
    store.BeginLoad();
    store.FinishLoad(Failed);
    loadingAfterMount := store.Loading();
    blankReloads := store.BeginSearch("   ");
    store.FinishLoad(Ok([]));
    var blank := store.BeginSearch("ana");
    store.FinishSearch(Failed, Ok(everyone));
    finalList := store.persons;
    spinner := store.searchLoading;
    loading := store.Loading();
  }

  /** A failed repository call leaves the list as it was for every write;
      a successful delete removes the person from lookups. */
  method WriteScenario(p: Person, id: string)
    returns (afterFailures: seq<Person>, foundAfterDelete: Option<Person>)
    ensures afterFailures == [p.(id := Some(id))]
    ensures foundAfterDelete == None
  {
    var store := new Store();
    var ok := store.AddPerson(Ok(p.(id := Some(id))));
    ok := store.AddPerson(Failed);
    ok := store.UpdatePerson(id, Failed);
    ok := store.DeletePerson(id, Failed);
    afterFailures := store.persons;
    ok := store.DeletePerson(id, Ok(()));
    LegacyPersonStore.DeletedNotFound(afterFailures, id, id + "x");
    foundAfterDelete := store.GetPersonById(id);
  }
}
