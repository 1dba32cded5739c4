/**
 * A predictor's extended signature as an ordered field map, with the two
 * edits the feedback transform performs on it: extension with new input
 * fields and removal of named fields.
 */
module Signatures {

  /** What `isinstance` distinguishes among a template's keyword values. */
  datatype FieldKind = InputField | OutputField | DspType | OtherKind

  datatype Descriptor = Descriptor(kind: FieldKind, prefix: string, desc: string)

  /** One `name: descriptor` entry of a template's keyword dictionary. */
  type Field = (string, Descriptor)

  /** An insertion-ordered dictionary of fields, as a list of entries. */
  type Fields = seq<Field>

  /** `dsp.Template(instructions, **fields)`. */
  datatype Signature = Signature(instructions: string, fields: Fields)

  predicate IsInput(d: Descriptor) { d.kind == InputField }

  /** The entries kept after the new fields: `dsp.Type` and `OutputField` values. */
  predicate IsTail(d: Descriptor) { d.kind == OutputField || d.kind == DspType }

  /** The keys of a field list. */
  function KeySet(fs: Fields): set<string>
    decreases |fs|
  {
    if fs == [] then {} else {fs[0].0} + KeySet(fs[1..])
  }

  /** A dictionary never holds the same key twice. */
  predicate KeysUnique(fs: Fields)
    decreases |fs|
  {
    fs == [] || (fs[0].0 !in KeySet(fs[1..]) && KeysUnique(fs[1..]))
  }

  lemma {:induction false} KeySetConcat(a: Fields, b: Fields)
    ensures KeySet(a + b) == KeySet(a) + KeySet(b)
    decreases |a|
  {
    if a == [] {
      assert a + b == b;
    } else {
      assert (a + b)[1..] == a[1..] + b;
      KeySetConcat(a[1..], b);
    }
  }

  lemma {:induction false} KeysUniqueConcat(a: Fields, b: Fields)
    ensures KeysUnique(a + b) <==> KeysUnique(a) && KeysUnique(b) && KeySet(a) !! KeySet(b)
    decreases |a|
  {
    if a == [] {
      assert a + b == b;
    } else {
      assert (a + b)[1..] == a[1..] + b;
      KeysUniqueConcat(a[1..], b);
      KeySetConcat(a[1..], b);
    }
  }

  /** Every entry's key is a key of the list. */
  lemma {:induction false} KeyOfEntry(fs: Fields, j: nat)
    requires j < |fs|
    ensures fs[j].0 in KeySet(fs)
    decreases j
  {
    if j > 0 {
      KeyOfEntry(fs[1..], j - 1);
    }
  }

  /** In a dictionary, two entries with the same key are the same entry. */
  lemma {:induction false} UniqueKeyEntry(fs: Fields, i: nat, j: nat)
    requires KeysUnique(fs) && i < |fs| && j < |fs| && fs[i].0 == fs[j].0
    ensures i == j
    decreases |fs|
  {
    if i > 0 && j > 0 {
      UniqueKeyEntry(fs[1..], i - 1, j - 1);
    } else if i > 0 {
      KeyOfEntry(fs[1..], i - 1);
    } else if j > 0 {
      KeyOfEntry(fs[1..], j - 1);
    }
  }

  /**
   * `d[k] = v` on an insertion-ordered dictionary: an existing key keeps its
   * position and takes the new value; a new key goes to the end.
   */
  function Put(fs: Fields, k: string, v: Descriptor): (r: Fields)
    ensures KeySet(r) == KeySet(fs) + {k}
    ensures k !in KeySet(fs) ==> r == fs + [(k, v)]
    ensures KeysUnique(fs) ==> KeysUnique(r)
    decreases |fs|
  {
    if fs == [] then [(k, v)]
    else if fs[0].0 == k then [(k, v)] + fs[1..]
    else [fs[0]] + Put(fs[1..], k, v)
  }

  /** `Put` on an existing key overwrites that entry in place. */
  lemma {:induction false} PutReplaces(fs: Fields, j: nat, v: Descriptor)
    requires KeysUnique(fs) && j < |fs|
    ensures Put(fs, fs[j].0, v) == fs[j := (fs[j].0, v)]
    decreases |fs|
  {
    if j == 0 {
    } else {
      if fs[0].0 == fs[j].0 {
        UniqueKeyEntry(fs, 0, j);
      }
      PutReplaces(fs[1..], j - 1, v);
      assert fs[j := (fs[j].0, v)] == [fs[0]] + fs[1..][j - 1 := (fs[j].0, v)];
    }
  }

  /** Every entry `Put` leaves is an old entry or the new one. */
  lemma {:induction false} PutEntries(fs: Fields, k: string, v: Descriptor, x: Field)
    requires x in Put(fs, k, v)
    ensures x in fs || x == (k, v)
    decreases |fs|
  {
    if fs != [] && fs[0].0 != k && x != fs[0] {
      PutEntries(fs[1..], k, v, x);
    }
  }

  /** `d.update(kvs)`: each entry in turn, as by `Put`. */
  function PutAll(fs: Fields, kvs: Fields): (r: Fields)
    ensures KeySet(r) == KeySet(fs) + KeySet(kvs)
    ensures KeysUnique(fs) ==> KeysUnique(r)
    decreases |kvs|
  {
    if kvs == [] then fs else PutAll(Put(fs, kvs[0].0, kvs[0].1), kvs[1..])
  }

  /** Every entry `PutAll` leaves is an old entry or one of the updates. */
  lemma {:induction false} PutAllEntries(fs: Fields, kvs: Fields, x: Field)
    requires x in PutAll(fs, kvs)
    ensures x in fs || x in kvs
    decreases |kvs|
  {
    if kvs != [] {
      PutAllEntries(Put(fs, kvs[0].0, kvs[0].1), kvs[1..], x);
      if x in Put(fs, kvs[0].0, kvs[0].1) {
        PutEntries(fs, kvs[0].0, kvs[0].1, x);
      }
    }
  }

  /** Updating with entries whose keys are all new appends them, in order. */
  lemma {:induction false} PutAllFresh(fs: Fields, kvs: Fields)
    requires KeysUnique(kvs) && KeySet(fs) !! KeySet(kvs)
    ensures PutAll(fs, kvs) == fs + kvs
    decreases |kvs|
  {
    if kvs != [] {
      var k, v := kvs[0].0, kvs[0].1;
      var fs' := fs + [(k, v)];
      assert KeySet(kvs) == {k} + KeySet(kvs[1..]);
      assert k !in KeySet(fs);
      assert PutAll(fs, kvs) == PutAll(fs', kvs[1..]);
      assert KeySet(fs') == KeySet(fs) + {k} by {
        KeySetConcat(fs, [(k, v)]);
        assert [(k, v)][1..] == [];
      }
      PutAllFresh(fs', kvs[1..]);
      assert fs' + kvs[1..] == fs + kvs;
    }
  }

  /** The input entries, in their original order. */
  function InputsOf(fs: Fields): (r: Fields)
    decreases |fs|
  {
    if fs == [] then []
    else if IsInput(fs[0].1) then [fs[0]] + InputsOf(fs[1..])
    else InputsOf(fs[1..])
  }

  /** The `dsp.Type` and output entries, in their original order. */
  function TailsOf(fs: Fields): (r: Fields)
    decreases |fs|
  {
    if fs == [] then []
    else if IsTail(fs[0].1) then [fs[0]] + TailsOf(fs[1..])
    else TailsOf(fs[1..])
  }

  /** The input selection keeps exactly the input entries. */
  lemma {:induction false} InputsOfEntries(fs: Fields)
    ensures forall x :: x in InputsOf(fs) <==> x in fs && IsInput(x.1)
    decreases |fs|
  {
    if fs != [] {
      InputsOfEntries(fs[1..]);
    }
  }

  /** The input selection keeps a subset of the keys, and keeps them distinct. */
  lemma {:induction false} InputsOfKeys(fs: Fields)
    ensures KeySet(InputsOf(fs)) <= KeySet(fs)
    ensures KeysUnique(fs) ==> KeysUnique(InputsOf(fs))
    decreases |fs|
  {
    if fs != [] {
      InputsOfKeys(fs[1..]);
    }
  }

  /** The output selection keeps exactly the `dsp.Type` and output entries. */
  lemma {:induction false} TailsOfEntries(fs: Fields)
    ensures forall x :: x in TailsOf(fs) <==> x in fs && IsTail(x.1)
    decreases |fs|
  {
    if fs != [] {
      TailsOfEntries(fs[1..]);
    }
  }

  /** The output selection keeps a subset of the keys, and keeps them distinct. */
  lemma {:induction false} TailsOfKeys(fs: Fields)
    ensures KeySet(TailsOf(fs)) <= KeySet(fs)
    ensures KeysUnique(fs) ==> KeysUnique(TailsOf(fs))
    decreases |fs|
  {
    if fs != [] {
      TailsOfKeys(fs[1..]);
    }
  }

  lemma {:induction false} InputsOfConcat(a: Fields, b: Fields)
    ensures InputsOf(a + b) == InputsOf(a) + InputsOf(b)
    decreases |a|
  {
    if a != [] {
      assert (a + b)[1..] == a[1..] + b;
      InputsOfConcat(a[1..], b);
    } else {
      assert a + b == b;
    }
  }

  lemma {:induction false} TailsOfConcat(a: Fields, b: Fields)
    ensures TailsOf(a + b) == TailsOf(a) + TailsOf(b)
    decreases |a|
  {
    if a != [] {
      assert (a + b)[1..] == a[1..] + b;
      TailsOfConcat(a[1..], b);
    } else {
      assert a + b == b;
    }
  }

  /** In a dictionary, an input key is never also an output key. */
  lemma {:induction false} InputsTailsDisjoint(fs: Fields)
    requires KeysUnique(fs)
    ensures KeySet(InputsOf(fs)) !! KeySet(TailsOf(fs))
    decreases |fs|
  {
    if fs != [] {
      InputsTailsDisjoint(fs[1..]);
      InputsOfKeys(fs[1..]);
      TailsOfKeys(fs[1..]);
    }
  }

  /**
   * `_extend_predictor_signature`: the input entries, updated with the new
   * fields, then updated with the `dsp.Type`/output entries; same instructions.
   */
  function Extend(sig: Signature, newFields: Fields): (r: Signature)
  {
    Signature(sig.instructions,
              PutAll(PutAll(InputsOf(sig.fields), newFields), TailsOf(sig.fields)))
  }

  /** Extending with a single field writes it into the inputs, then appends the outputs. */
  lemma ExtendOne(sig: Signature, k: string, v: Descriptor)
    ensures Extend(sig, [(k, v)])
            == Signature(sig.instructions,
                         PutAll(Put(InputsOf(sig.fields), k, v), TailsOf(sig.fields)))
  {
    PutAllOne(InputsOf(sig.fields), k, v);
  }

  lemma PutAllOne(fs: Fields, k: string, v: Descriptor)
    ensures PutAll(fs, [(k, v)]) == Put(fs, k, v)
  {
    var kvs := [(k, v)];
    assert kvs[1..] == [];
    assert kvs[0] == (k, v);
    assert PutAll(fs, kvs) == PutAll(Put(fs, k, v), []);
  }

  /**
   * What extension keeps: the instructions, the keys of every input, output
   * and new field, and nothing but those entries; other kinds are dropped.
   */
  lemma ExtendKeeps(sig: Signature, newFields: Fields)
    ensures Extend(sig, newFields).instructions == sig.instructions
    ensures KeySet(Extend(sig, newFields).fields)
            == KeySet(InputsOf(sig.fields)) + KeySet(newFields) + KeySet(TailsOf(sig.fields))
    ensures KeysUnique(sig.fields) ==> KeysUnique(Extend(sig, newFields).fields)
    ensures forall x | x in Extend(sig, newFields).fields ::
              x in newFields || (x in sig.fields && x.1.kind != OtherKind)
  {
    var inputs, tails := InputsOf(sig.fields), TailsOf(sig.fields);
    InputsOfKeys(sig.fields);
    TailsOfKeys(sig.fields);
    InputsOfEntries(sig.fields);
    TailsOfEntries(sig.fields);
    forall x | x in Extend(sig, newFields).fields
      ensures x in newFields || (x in sig.fields && x.1.kind != OtherKind)
    {
      PutAllEntries(PutAll(inputs, newFields), tails, x);
      if x in PutAll(inputs, newFields) {
        PutAllEntries(inputs, newFields, x);
      }
    }
  }

  /**
   * The ordering promise: with fresh, distinct new keys, the result is the
   * original inputs, then the new fields, then the original outputs.
   */
  lemma ExtendOrder(sig: Signature, newFields: Fields)
    requires KeysUnique(sig.fields) && KeysUnique(newFields)
    requires KeySet(sig.fields) !! KeySet(newFields)
    ensures Extend(sig, newFields).fields
            == InputsOf(sig.fields) + newFields + TailsOf(sig.fields)
  {
    var inputs, tails := InputsOf(sig.fields), TailsOf(sig.fields);
    InputsOfKeys(sig.fields);
    TailsOfKeys(sig.fields);
    PutAllFresh(inputs, newFields);
    InputsTailsDisjoint(sig.fields);
    KeySetConcat(inputs, newFields);
    PutAllFresh(inputs + newFields, tails);
  }

  /**
   * A new field whose key is already an input keeps that input's position
   * and takes the new value.
   */
  lemma ExtendReplacesInput(sig: Signature, j: nat, v: Descriptor)
    requires KeysUnique(sig.fields)
    requires j < |InputsOf(sig.fields)|
    ensures var inputs := InputsOf(sig.fields);
            Extend(sig, [(inputs[j].0, v)]).fields
            == inputs[j := (inputs[j].0, v)] + TailsOf(sig.fields)
  {
    var inputs, tails := InputsOf(sig.fields), TailsOf(sig.fields);
    var k := inputs[j].0;
    InputsOfKeys(sig.fields);
    TailsOfKeys(sig.fields);
    PutReplaces(inputs, j, v);
    var updated := inputs[j := (k, v)];
    assert PutAll(inputs, [(k, v)]) == updated;
    KeyOfEntry(inputs, j);
    InputsTailsDisjoint(sig.fields);
    PutAllFresh(updated, tails);
  }

  /** `d.pop(k, None)`: drops the entry for `k` if there is one. */
  function RemoveKey(fs: Fields, k: string): (r: Fields)
    ensures KeySet(r) == KeySet(fs) - {k}
    ensures k !in KeySet(fs) ==> r == fs
    ensures KeysUnique(fs) ==> KeysUnique(r)
    decreases |fs|
  {
    if fs == [] then []
    else if fs[0].0 == k then RemoveKey(fs[1..], k)
    else [fs[0]] + RemoveKey(fs[1..], k)
  }

  /** Removal keeps every other entry, in its original relative order. */
  lemma {:induction false} RemoveKeyConcat(a: Fields, b: Fields, k: string)
    ensures RemoveKey(a + b, k) == RemoveKey(a, k) + RemoveKey(b, k)
    decreases |a|
  {
    if a != [] {
      assert (a + b)[1..] == a[1..] + b;
      RemoveKeyConcat(a[1..], b, k);
    } else {
      assert a + b == b;
    }
  }

  /** Removing each named key in turn. */
  function RemoveKeys(fs: Fields, names: seq<string>): (r: Fields)
    ensures KeySet(r) == KeySet(fs) - set n | n in names
    ensures KeysUnique(fs) ==> KeysUnique(r)
    decreases |names|
  {
    if names == [] then fs else RemoveKeys(RemoveKey(fs, names[0]), names[1..])
  }

  /** Removing names none of which is present changes nothing. */
  lemma {:induction false} RemoveKeysAbsent(fs: Fields, names: seq<string>)
    requires forall n | n in names :: n !in KeySet(fs)
    ensures RemoveKeys(fs, names) == fs
    decreases |names|
  {
    if names != [] {
      RemoveKeysAbsent(fs, names[1..]);
    }
  }

  /**
   * `_revert_predictor_signature`: the same instructions, with the named keys
   * removed and every other entry left in place.
   */
  function Revert(sig: Signature, names: seq<string>): (r: Signature)
    ensures r.instructions == sig.instructions
    ensures KeySet(r.fields) == KeySet(sig.fields) - set n | n in names
    ensures KeysUnique(sig.fields) ==> KeysUnique(r.fields)
  {
    Signature(sig.instructions, RemoveKeys(sig.fields, names))
  }

  /** Reverting names that are absent is a no-op. */
  lemma RevertAbsent(sig: Signature, names: seq<string>)
    requires forall n | n in names :: n !in KeySet(sig.fields)
    ensures Revert(sig, names) == sig
  {
    RemoveKeysAbsent(sig.fields, names);
  }

  /** Reverting twice with the same names is the same as reverting once. */
  lemma RevertIdempotent(sig: Signature, names: seq<string>)
    ensures Revert(Revert(sig, names), names) == Revert(sig, names)
  {
    RevertAbsent(Revert(sig, names), names);
  }

  /** Every entry of a list of inputs is an input. */
  predicate AllInputs(fs: Fields)
  {
    forall x | x in fs :: IsInput(x.1)
  }

  lemma {:induction false} SelectAllInputs(fs: Fields)
    requires AllInputs(fs)
    ensures InputsOf(fs) == fs && TailsOf(fs) == []
    decreases |fs|
  {
    if fs != [] {
      SelectAllInputs(fs[1..]);
    }
  }

  lemma {:induction false} SelectAllTails(fs: Fields)
    requires forall x | x in fs :: IsTail(x.1)
    ensures InputsOf(fs) == [] && TailsOf(fs) == fs
    decreases |fs|
  {
    if fs != [] {
      SelectAllTails(fs[1..]);
    }
  }

  /** Extending twice with the same input field is the same as extending once. */
  lemma ExtendIdempotent(sig: Signature, k: string, v: Descriptor)
    requires KeysUnique(sig.fields)
    requires IsInput(v)
    requires k !in KeySet(TailsOf(sig.fields))
    ensures Extend(Extend(sig, [(k, v)]), [(k, v)]) == Extend(sig, [(k, v)])
  {
    var inputs, tails := InputsOf(sig.fields), TailsOf(sig.fields);
    var inputs' := Put(inputs, k, v);
    var once := inputs' + tails;
    assert Extend(sig, [(k, v)]) == Signature(sig.instructions, once) by {
      ExtendOne(sig, k, v);
      assert KeysUnique(tails) && KeySet(inputs') !! KeySet(tails) by {
        InputsOfKeys(sig.fields);
        TailsOfKeys(sig.fields);
        InputsTailsDisjoint(sig.fields);
      }
      PutAllFresh(inputs', tails);
    }
    assert InputsOf(once) == inputs' && TailsOf(once) == tails by {
      assert AllInputs(inputs') by {
        InputsOfEntries(sig.fields);
        forall x | x in inputs'
          ensures IsInput(x.1)
        {
          PutEntries(inputs, k, v, x);
        }
      }
      assert forall x | x in tails :: IsTail(x.1) by {
        TailsOfEntries(sig.fields);
      }
      InputsOfConcat(inputs', tails);
      TailsOfConcat(inputs', tails);
      SelectAllInputs(inputs');
      SelectAllTails(tails);
    }
    assert Put(inputs', k, v) == inputs' by {
      InputsOfKeys(sig.fields);
      PutAgain(inputs, k, v);
    }
    ExtendOne(Signature(sig.instructions, once), k, v);
  }

  /** Writing the same key and value twice is the same as writing it once. */
  lemma PutAgain(fs: Fields, k: string, v: Descriptor)
    requires KeysUnique(fs)
    ensures Put(Put(fs, k, v), k, v) == Put(fs, k, v)
  {
    var once := Put(fs, k, v);
    var j: nat;
    if k in KeySet(fs) {
      j := FindKey(fs, k);
      PutReplaces(fs, j, v);
    } else {
      j := |fs|;
    }
    assert j < |once| && once[j] == (k, v);
    PutReplaces(once, j, v);
    assert once[j := (k, v)] == once;
  }

  /** The position of a key that is present. */
  lemma {:induction false} FindKey(fs: Fields, k: string) returns (j: nat)
    requires k in KeySet(fs)
    ensures j < |fs| && fs[j].0 == k
    decreases |fs|
  {
    if fs[0].0 == k {
      j := 0;
    } else {
      var j' := FindKey(fs[1..], k);
      j := j' + 1;
    }
  }

  /**
   * A signature that can survive an extend/revert round trip on key `k`: a
   * dictionary without `k` that lists all inputs before all outputs and
   * holds nothing else.
   */
  predicate Restorable(sig: Signature, k: string)
  {
    && KeysUnique(sig.fields)
    && k !in KeySet(sig.fields)
    && sig.fields == InputsOf(sig.fields) + TailsOf(sig.fields)
  }

  /** Extending with a fresh field and reverting that field gives back the signature. */
  lemma ExtendRevertRoundTrip(sig: Signature, k: string, v: Descriptor)
    requires Restorable(sig, k)
    ensures Revert(Extend(sig, [(k, v)]), [k]) == sig
  {
    var inputs, tails := InputsOf(sig.fields), TailsOf(sig.fields);
    var extended := Extend(sig, [(k, v)]).fields;
    assert extended == inputs + [(k, v)] + tails by {
      assert KeySet([(k, v)]) == {k};
      ExtendOrder(sig, [(k, v)]);
    }
    assert RemoveKey(extended, k) == inputs + tails by {
      assert k !in KeySet(inputs) && k !in KeySet(tails) by {
        InputsOfKeys(sig.fields);
        TailsOfKeys(sig.fields);
      }
      RemoveKeyConcat(inputs + [(k, v)], tails, k);
      RemoveKeyConcat(inputs, [(k, v)], k);
      assert RemoveKey([(k, v)], k) == [];
    }
    assert [k][1..] == [];
    assert RemoveKeys(extended, [k]) == RemoveKey(extended, k);
  }
}
