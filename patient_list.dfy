/** The patient list's search box (components/PatientList.tsx). */
module PatientList {
  import opened Types
  import opened Text
  import opened Lists

  /** The search predicate: the term, lowercased, occurs in the lowercased name
      or in the lowercased device serial. */
  predicate Matches(p: Patient, term: string)
  {
    Contains(ToLower(p.name), ToLower(term)) || Contains(ToLower(p.device.serialId), ToLower(term))
  }

  /** `filteredPatients`: the matching patients, in list order. */
  function FilteredPatients(ps: seq<Patient>, term: string): (r: seq<Patient>)
    ensures IsSubsequence(r, ps)
    ensures forall p :: p in r <==> p in ps && Matches(p, term)
    ensures forall p :: Occurrences(r, p) == if Matches(p, term) then Occurrences(ps, p) else 0
  {
    Filter(ps, (p: Patient) => Matches(p, term))
  }

  /** An empty search box shows every patient. */
  lemma EmptySearchKeepsAll(ps: seq<Patient>)
    ensures FilteredPatients(ps, "") == ps
  {
    forall p | p in ps ensures Matches(p, "") {
      ContainsEmpty(ToLower(p.name));
    }
    FilterAll(ps, (p: Patient) => Matches(p, ""));
  }

  /** The "No patients found." row. */
  predicate ShowsNoPatientsFound(ps: seq<Patient>, term: string)
  {
    |FilteredPatients(ps, term)| == 0
  }

  lemma NoPatientsFoundIff(ps: seq<Patient>, term: string)
    ensures ShowsNoPatientsFound(ps, term) <==> forall p :: p in ps ==> !Matches(p, term)
  {
    var r := FilteredPatients(ps, term);
    if r != [] {
      assert r[0] in r;
    }
  }

  lemma {:induction false} LowerCharIdempotent(c: char)
    ensures LowerChar(LowerChar(c)) == LowerChar(c)
  {
  }

  /** Lowercasing the term first changes nothing: the search ignores the case
      of the term. */
  lemma SearchIgnoresTermCase(p: Patient, term: string)
    ensures Matches(p, ToLower(term)) == Matches(p, term)
  {
    forall i | 0 <= i < |term| ensures ToLower(ToLower(term))[i] == ToLower(term)[i] {
      LowerCharIdempotent(term[i]);
    }
    assert ToLower(ToLower(term)) == ToLower(term);
  }
}
