/** An environment given as pairs, and the JavaScript object it is turned into. */
module Records {

  type Pair = (string, string)

  /** record[key] = value, where assigning a string to __proto__ is silently ignored. */
  function Assign(record: map<string, string>, pair: Pair): map<string, string> {
    if pair.0 == "__proto__" then record else record[pair.0 := pair.1]
  }

  function Record(env: seq<Pair>): map<string, string> {
    if env == [] then map[] else Assign(Record(env[..|env| - 1]), env[|env| - 1])
  }

  ghost predicate LastAt(env: seq<Pair>, key: string, value: string, i: nat) {
    i < |env| && env[i] == (key, value) && forall j | i < j < |env| :: env[j].0 != key
  }

  /** A key's value is that of its last pair; only __proto__ never becomes a key. */
  lemma {:induction false} LastPairWins(env: seq<Pair>, key: string, value: string)
    ensures key in Record(env) && Record(env)[key] == value <==>
              key != "__proto__" && exists i :: LastAt(env, key, value, i)
  {
    if env != [] {
      var fewer, last := env[..|env| - 1], env[|env| - 1];
      LastPairWins(fewer, key, value);
      if last == (key, value) {
        assert LastAt(env, key, value, |env| - 1);
      } else if last.0 != key || key == "__proto__" {
        forall i: nat ensures last.0 != key ==> (LastAt(env, key, value, i) <==> LastAt(fewer, key, value, i)) {
          assert forall j | 0 <= j < |fewer| :: env[j] == fewer[j];
        }
      } else {
        forall i: nat ensures !LastAt(env, key, value, i) {
          assert env[|env| - 1].0 == key && env[|env| - 1].1 != value;
        }
      }
    }
  }

  /** The loop that fills the record. */
  method Fill(env: seq<Pair>) returns (record: map<string, string>)
    ensures record == Record(env)
  {
    record := map[];
    for i := 0 to |env|
      invariant record == Record(env[..i])
    {
      assert env[..i + 1][..i] == env[..i];
      record := Assign(record, env[i]);
    }
    assert env[..|env|] == env;
  }

  ghost predicate UniqueKeys(env: seq<Pair>) {
    forall i, j | 0 <= i < j < |env| :: env[i].0 != env[j].0
  }

  /** Without repeated keys, a pair is in the record exactly if it is in the list. */
  lemma RecordOfUnique(env: seq<Pair>, key: string, value: string)
    requires UniqueKeys(env)
    ensures key in Record(env) && Record(env)[key] == value <==> key != "__proto__" && (key, value) in env
  {
    LastPairWins(env, key, value);
    if (key, value) in env {
      var i :| 0 <= i < |env| && env[i] == (key, value);
      assert LastAt(env, key, value, i);
    }
  }

  /** Two lists that agree pair by pair, leaving __proto__ aside. */
  ghost predicate SamePairs(a: seq<Pair>, b: seq<Pair>) {
    forall pair: Pair | pair.0 != "__proto__" :: pair in a <==> pair in b
  }

  /** Without repeated keys, the records agree exactly if the pairs do. */
  lemma RecordsAgree(a: seq<Pair>, b: seq<Pair>)
    requires UniqueKeys(a) && UniqueKeys(b)
    ensures Record(a) == Record(b) <==> SamePairs(a, b)
  {
    if Record(a) == Record(b) {
      forall pair: Pair | pair.0 != "__proto__"
        ensures pair in a <==> pair in b
      {
        RecordOfUnique(a, pair.0, pair.1);
        RecordOfUnique(b, pair.0, pair.1);
      }
    }
    if SamePairs(a, b) {
      forall key ensures key in Record(a) <==> key in Record(b) {
        if key in Record(a) {
          RecordOfUnique(a, key, Record(a)[key]);
          RecordOfUnique(b, key, Record(a)[key]);
        }
        if key in Record(b) {
          RecordOfUnique(a, key, Record(b)[key]);
          RecordOfUnique(b, key, Record(b)[key]);
        }
      }
      forall key | key in Record(a) ensures Record(a)[key] == Record(b)[key] {
        RecordOfUnique(a, key, Record(a)[key]);
        RecordOfUnique(b, key, Record(a)[key]);
      }
      assert Record(a).Keys == Record(b).Keys;
    }
  }
}
