// Party numbering: the signup handlers of the server, which count parties into cohorts.
module Signup {
  // The stored record, and how many session identifiers have been drawn.
  datatype Record = Record(number: nat, uuid: nat)

  class Server {
    var record: Record
    var drawn: nat

    constructor ()
      ensures record == Record(0, 0) && drawn == 1
    {
      record, drawn := Record(0, 0), 1;
    }

    // signup_keygen with limit = parties, signup_sign with limit = threshold + 1.  The
    // identifier of the d-th session started is d.
    method Signup(limit: nat) returns (r: Record)
      modifies this
      ensures (record, drawn) == After(old(record), old(drawn), limit) && r == record
    {
      if record.number < limit {
        record := Record(record.number + 1, record.uuid);
      } else {
        record := Record(1, drawn);
        drawn := drawn + 1;
      }
      r := record;
    }
  }

  function After(record: Record, drawn: nat, limit: nat): (Record, nat) {
    if record.number < limit then (Record(record.number + 1, record.uuid), drawn)
    else (Record(1, drawn), drawn + 1)
  }

  // The state after a number of calls from the initial record.
  function Calls(c: nat, limit: nat): (Record, nat) {
    if c == 0 then (Record(0, 0), 1)
    else
      var (record, drawn) := Calls(c - 1, limit);
      After(record, drawn, limit)
  }

  // Each block of `limit` consecutive calls is answered with the numbers 1 .. limit, in
  // order, under the block's own session identifier: the numbers of a cohort are distinct.
  lemma {:induction false} CohortNumbers(block: nat, k: nat, limit: nat)
    requires k < limit
    ensures Calls(block * limit + k + 1, limit) == (Record(k + 1, block), block + 1)
    decreases block, k
  {
    if k > 0 {
      CohortNumbers(block, k - 1, limit);
    } else if block > 0 {
      CohortNumbers(block - 1, limit - 1, limit);
      assert (block - 1) * limit + (limit - 1) + 1 == block * limit;
    }
  }
}
