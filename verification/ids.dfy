/**
 * The six-letter public identifier: its format check, the random draw
 * used on rotation, and the retry loop of the standalone id generator.
 *
 * Randomness (`secrets.choice`) is an input: each draw is a natural number
 * and picks `alphabet[draw % |alphabet|]`.
 */
module Ids {
  import opened Wrappers
  import opened Text
  import opened DocStore

  const Letters: string := "ABCDEFGHIJKLMNOPQRSTUVWXYZ"
  const Digits: string := "0123456789"

  /** `validate_unique_id`. */
  predicate ValidUniqueId(s: string) {
    s != "" && |s| == 6 && PyIsUpper(s) && PyIsAlpha(s)
  }

  /** A valid identifier is exactly six characters from A-Z. */
  lemma ValidUniqueIdIff(s: string)
    ensures ValidUniqueId(s) <==> |s| == 6 && forall i :: 0 <= i < |s| ==> IsUpperChar(s[i])
  {
    if |s| == 6 && forall i :: 0 <= i < |s| ==> IsUpperChar(s[i]) {
      assert IsUpperChar(s[0]);
    }
  }

  /** One `secrets.choice(alphabet)` per draw. */
  function Choose(alphabet: string, draws: seq<nat>): (r: string)
    requires |alphabet| > 0
    ensures |r| == |draws|
    ensures forall i :: 0 <= i < |r| ==> r[i] in alphabet
  {
    seq(|draws|, i requires 0 <= i < |draws| => alphabet[draws[i] % |alphabet|])
  }

  lemma LettersAreUpper(c: char)
    requires c in Letters
    ensures IsUpperChar(c)
  {
  }

  /** `generate_random_unique_id(length)`: `length` letters drawn from A-Z, with no store check. */
  function GenerateRandomUniqueId(draws: seq<nat>): (r: string)
    ensures |r| == |draws|
    ensures forall i :: 0 <= i < |r| ==> IsUpperChar(r[i])
    ensures |draws| == 6 ==> ValidUniqueId(r)
  {
    var r := Choose(Letters, draws);
    assert forall i :: 0 <= i < |r| ==> IsUpperChar(r[i]) by {
      forall i | 0 <= i < |r| ensures IsUpperChar(r[i]) {
        LettersAreUpper(r[i]);
      }
    }
    ValidUniqueIdIff(r);
    r
  }

  /** The document that records an identifier as taken. */
  function MappingDocId(id: string): string {
    "user_id:" + id
  }

  /** `db[mapping_doc_id]` succeeds. */
  predicate MappingExists(docs: seq<Doc>, id: string) {
    exists d :: d in docs && Get(d, "_id") == Str(MappingDocId(id))
  }

  /** The candidate of attempt `i`. */
  function Candidate(draws: seq<seq<nat>>, i: nat): string
    requires i < |draws|
  {
    Choose(Letters, draws[i])
  }

  /** The number of attempts made: `max_attempts`, bounded by the draws supplied. */
  function Attempts(draws: seq<seq<nat>>, maxAttempts: int): nat {
    if maxAttempts <= 0 then 0 else if maxAttempts < |draws| then maxAttempts else |draws|
  }

  /** Attempts `0..n` all produced taken identifiers. */
  ghost predicate AllTaken(docs: seq<Doc>, draws: seq<seq<nat>>, n: nat)
    requires n <= |draws|
  {
    forall j :: 0 <= j < n ==> MappingExists(docs, Candidate(draws, j))
  }

  /** Attempt `i` of `n` is the first whose candidate `id` is free. */
  ghost predicate FirstFree(docs: seq<Doc>, draws: seq<seq<nat>>, i: int, n: nat, id: string) {
    0 <= i < n && n <= |draws| && id == Candidate(draws, i)
    && !MappingExists(docs, id) && AllTaken(docs, draws, i)
  }

  /**
   * `id_generator.generate_unique_id(db, length, max_attempts)`: None for a
   * null database; otherwise the first candidate whose `user_id:<id>`
   * document is absent, or None when every attempt was taken.
   */
  method GenerateUniqueId(db: Option<seq<Doc>>, draws: seq<seq<nat>>, maxAttempts: int)
    returns (r: Option<string>)
    ensures db.None? ==> r.None?
    ensures r.None? && db.Some? ==> AllTaken(db.value, draws, Attempts(draws, maxAttempts))
    ensures r.Some? ==> db.Some?
    ensures r.Some? && db.Some? ==> exists i :: FirstFree(db.value, draws, i, Attempts(draws, maxAttempts), r.value)
  {
    if db.None? {
      return None;
    }
    var docs := db.value;
    var n := Attempts(draws, maxAttempts);
    var attempt := 0;
    while attempt < n
      invariant 0 <= attempt <= n
      invariant AllTaken(docs, draws, attempt)
    {
      var candidate := Candidate(draws, attempt);
      if !(exists d :: d in docs && Get(d, "_id") == Str(MappingDocId(candidate))) {
        assert FirstFree(docs, draws, attempt, n, candidate);
        return Some(candidate);
      }
      attempt := attempt + 1;
    }
    return None;
  }
}
