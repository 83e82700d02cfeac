/**
 * The record store behind the catalog: one table per kind of catalog entity,
 * holding at most one record per natural key (the Spotify id, or a genre's
 * name) because a unique index sits on that key. Saves are modelled as
 * functions returning the new table and the rejection, if any, so that the
 * service can turn the store's failures into values instead of exceptions.
 */
module Catalog {
  import opened Wrappers

  /**
   * Why the store rejected a save: a violation of the named unique index, or
   * any other failure (lost connection, a violated foreign key ...) with its
   * error code.
   */
  datatype SaveError = UniqueViolation(constraint: string) | OtherError(code: string)

  /** Every record is filed under its own natural key. */
  ghost predicate KeyedBy<R>(records: map<string, R>, keyOf: R -> string)
  {
    forall k | k in records :: keyOf(records[k]) == k
  }

  /** `findOneBy` on the natural key: the record filed under `key`, if any. */
  function Lookup<R>(records: map<string, R>, key: string): (r: Option<R>)
    ensures r.Some? <==> key in records
    ensures r.Some? ==> r.value == records[key]
  {
    if key in records then Some(records[key]) else None
  }

  /** A lookup finds a record exactly when one is filed under the key, and the record found carries that key. */
  lemma LookupFindsKey<R>(records: map<string, R>, keyOf: R -> string, key: string)
    requires KeyedBy(records, keyOf)
    ensures Lookup(records, key).Some? <==> key in records
    ensures Lookup(records, key).Some? ==> keyOf(Lookup(records, key).value) == key
  {
  }

  /**
   * `save` of a new record. `fault`, a failure of the store itself (a lost
   * connection, a violated foreign key, a concurrent insert under the same
   * key ...), rejects the save whatever the record; otherwise a record whose
   * key is already filed violates the kind's unique index `index`; otherwise
   * the record is filed under its key. A rejected save leaves the table as it
   * was.
   */
  function Insert<R>(records: map<string, R>, keyOf: R -> string, index: string, rec: R, fault: Option<SaveError>)
    : (r: (map<string, R>, Option<SaveError>))
    ensures r.1.None? <==> keyOf(rec) !in records && fault.None?
    ensures fault.Some? ==> r.1 == fault
    ensures fault.None? && keyOf(rec) in records ==> r.1 == Some(UniqueViolation(index))
    ensures r.0 == if r.1.None? then records[keyOf(rec) := rec] else records
  {
    if fault.Some? then (records, fault)
    else if keyOf(rec) in records then (records, Some(UniqueViolation(index)))
    else (records[keyOf(rec) := rec], None)
  }

  /** `save` of a record that is already stored: it replaces what is filed under its key, unless `fault` rejects the save. */
  function Update<R>(records: map<string, R>, keyOf: R -> string, rec: R, fault: Option<SaveError>)
    : (r: (map<string, R>, Option<SaveError>))
    ensures r.1 == fault
    ensures fault.None? ==> keyOf(rec) in r.0 && r.0[keyOf(rec)] == rec
  {
    if fault.Some? then (records, fault) else (records[keyOf(rec) := rec], None)
  }

  /** An update keeps one record per key and touches nothing but the record's own key. */
  lemma UpdateOnlyTouchesItsKey<R>(records: map<string, R>, keyOf: R -> string, rec: R, fault: Option<SaveError>)
    requires KeyedBy(records, keyOf)
    ensures var stored := Update(records, keyOf, rec, fault).0;
      && KeyedBy(stored, keyOf)
      && stored.Keys == (if fault.None? then records.Keys + {keyOf(rec)} else records.Keys)
      && forall k | k in records && k != keyOf(rec) :: stored[k] == records[k]
  {
  }

  /**
   * Create-or-fetch: save a new record; when the store rejects it for
   * violating this kind's own natural-key index, another creator got there
   * first and the answer is whatever is now filed under the key; any other
   * rejection, a violation of a different index included, is the caller's
   * error.
   */
  function CreateOrFetch<R>(records: map<string, R>, keyOf: R -> string, index: string, rec: R, fault: Option<SaveError>)
    : (r: (map<string, R>, Result<Option<R>, SaveError>))
    ensures r.0 == records || (keyOf(rec) !in records && r.0 == records[keyOf(rec) := rec])
    ensures KeyedBy(records, keyOf) ==> KeyedBy(r.0, keyOf)
  {
    var (stored, err) := Insert(records, keyOf, index, rec, fault);
    if err.None? then (stored, Success(Some(rec)))
    else if err.value == UniqueViolation(index) then (stored, Success(Lookup(stored, keyOf(rec))))
    else (stored, Failure(err.value))
  }

  /** A record with a new key is stored and returned as given. */
  lemma CreateNewKey<R>(records: map<string, R>, keyOf: R -> string, index: string, rec: R)
    requires keyOf(rec) !in records
    ensures CreateOrFetch(records, keyOf, index, rec, None) == (records[keyOf(rec) := rec], Success(Some(rec)))
  {
  }

  /**
   * A record whose key is taken adds nothing; unless the store fails for
   * another reason, the caller receives the record already stored under the
   * key. The store may also report the index's violation itself, as when a
   * concurrent creator commits first.
   */
  lemma CreateExistingKey<R>(records: map<string, R>, keyOf: R -> string, index: string, rec: R, fault: Option<SaveError>)
    requires keyOf(rec) in records
    requires fault.None? || fault == Some(UniqueViolation(index))
    ensures CreateOrFetch(records, keyOf, index, rec, fault) == (records, Success(Some(records[keyOf(rec)])))
  {
  }

  /**
   * Any rejection other than this kind's own unique index reaches the caller
   * unchanged and nothing is stored, whether or not the key is already filed.
   */
  lemma CreateOtherFailure<R>(records: map<string, R>, keyOf: R -> string, index: string, rec: R, e: SaveError)
    requires e != UniqueViolation(index)
    ensures CreateOrFetch(records, keyOf, index, rec, Some(e)) == (records, Failure(e))
  {
  }

  /**
   * Whatever create-or-fetch hands back is the record now filed under the
   * requested key: every successful answer carries that key.
   */
  lemma CreateAnswerIsStored<R>(records: map<string, R>, keyOf: R -> string, index: string, rec: R, fault: Option<SaveError>)
    requires KeyedBy(records, keyOf)
    ensures var (stored, res) := CreateOrFetch(records, keyOf, index, rec, fault);
      res.Success? && res.value.Some? ==>
        keyOf(rec) in stored && res.value.value == stored[keyOf(rec)] && keyOf(res.value.value) == keyOf(rec)
  {
  }

  /** Create-or-fetch touches nothing but the requested key. */
  lemma CreateOnlyTouchesItsKey<R>(records: map<string, R>, keyOf: R -> string, index: string, rec: R, fault: Option<SaveError>)
    ensures var stored := CreateOrFetch(records, keyOf, index, rec, fault).0;
      && stored.Keys - {keyOf(rec)} == records.Keys - {keyOf(rec)}
      && forall k | k in records && k != keyOf(rec) :: stored[k] == records[k]
  {
  }

  /** Creators that each save one record in turn, with no failure of the store; the table and every answer. */
  function CreateInTurn<R>(records: map<string, R>, keyOf: R -> string, index: string, recs: seq<R>)
    : (r: (map<string, R>, seq<Result<Option<R>, SaveError>>))
    ensures |r.1| == |recs|
    decreases |recs|
  {
    if recs == [] then (records, [])
    else
      var (stored, res) := CreateOrFetch(records, keyOf, index, recs[0], None);
      var (final, rest) := CreateInTurn(stored, keyOf, index, recs[1..]);
      (final, [res] + rest)
  }

  /** Once a key is filed, further creators with that key change nothing and all receive the stored record. */
  lemma {:induction false} CreateInTurnKeyTaken<R>(records: map<string, R>, keyOf: R -> string, index: string,
                                                    recs: seq<R>, key: string)
    requires key in records
    requires forall i | 0 <= i < |recs| :: keyOf(recs[i]) == key
    ensures CreateInTurn(records, keyOf, index, recs).0 == records
    ensures forall i | 0 <= i < |recs| :: CreateInTurn(records, keyOf, index, recs).1[i] == Success(Some(records[key]))
    decreases |recs|
  {
    if recs != [] {
      CreateExistingKey(records, keyOf, index, recs[0], None);
      CreateInTurnKeyTaken(records, keyOf, index, recs[1..], key);
    }
  }

  /**
   * Create is idempotent per natural key: however many creators race for the
   * same key, the table ends with exactly one record under it (the one
   * already there, or else the first creator's), no other key is touched,
   * and every creator receives that one record.
   */
  lemma {:induction false} CreateIsIdempotent<R>(records: map<string, R>, keyOf: R -> string, index: string,
                                                  recs: seq<R>, key: string)
    requires KeyedBy(records, keyOf)
    requires recs != []
    requires forall i | 0 <= i < |recs| :: keyOf(recs[i]) == key
    ensures var (stored, answers) := CreateInTurn(records, keyOf, index, recs);
      && KeyedBy(stored, keyOf)
      && stored.Keys == records.Keys + {key}
      && (forall k | k in records && k != key :: stored[k] == records[k])
      && stored[key] == (if key in records then records[key] else recs[0])
      && forall i | 0 <= i < |recs| :: answers[i] == Success(Some(stored[key]))
  {
    var (first, res) := CreateOrFetch(records, keyOf, index, recs[0], None);
    if key in records {
      CreateExistingKey(records, keyOf, index, recs[0], None);
    } else {
      CreateNewKey(records, keyOf, index, recs[0]);
    }
    assert key in first && first[key] == (if key in records then records[key] else recs[0]);
    CreateInTurnKeyTaken(first, keyOf, index, recs[1..], key);
  }
}
