/** The data access objects of the third prototype. A DAO answers whether it holds a key,
    reads and writes values, and offers guarded reads and writes built on those three.
    The registry keeps its values in a dict, the disk store keeps a dict that it writes to
    a json file after each change, and the file store claims the single key "str". The data
    manager asks a list of DAOs for a key and copies the value it found into the DAOs
    that lack it. */
module Daos {

  import opened Wrappers
  import opened Seqs

  /** `DataObject`: a value the DAOs store, compared by identity. */
  class DataObject {
    constructor()
    {
    }
  }

  /** The kinds of DAO: `Registry`, `FileAccess`, `DiskAccess`. */
  datatype Kind = RegistryDao | FileAccessDao | DiskAccessDao

  /** What a write leaves in the dict of a DAO of the given kind: the file store keeps none. */
  function Stored(kind: Kind, before: map<string, DataObject>, key: string, value: DataObject): (after: map<string, DataObject>)
    ensures kind != FileAccessDao ==> key in after && after[key] == value
    ensures forall k :: k != key ==> (k in after <==> k in before)
    ensures forall k :: k != key && k in before ==> after[k] == before[k]
    ensures kind == FileAccessDao ==> after == before
  {
    if kind == FileAccessDao then before else before[key := value]
  }

  class Dao {
    const kind: Kind
    /** `dct` of the registry and the disk store. */
    var dct: map<string, DataObject>
    /** The json file of the disk store, `None` while there is none. */
    var file: Option<map<string, DataObject>>

    constructor Registry()
      ensures kind == RegistryDao && dct == map[] && file == None
    {
      kind := RegistryDao;
      dct := map[];
      file := None;
    }

    constructor FileAccess()
      ensures kind == FileAccessDao && dct == map[] && file == None
    {
      kind := FileAccessDao;
      dct := map[];
      file := None;
    }

    /** `DiskAccess()`: the dict is loaded from the file, and is empty when there is no file. */
    constructor DiskAccess(file: Option<map<string, DataObject>>)
      ensures kind == DiskAccessDao && this.file == file
      ensures dct == if file.Some? then file.value else map[]
    {
      kind := DiskAccessDao;
      this.file := file;
      dct := if file.Some? then file.value else map[];
    }

    /** `exists` (`_is_accessible`). */
    predicate Exists(key: string)
      reads this
    {
      if kind == FileAccessDao then key == "str" else key in dct
    }

    /** `_read`: the stored value; the file store asserts the key is "hey" and answers a new
        object. */
    method Read(key: string) returns (r: Result<DataObject>)
      ensures kind != FileAccessDao ==> (r.Ok? <==> key in dct)
      ensures kind != FileAccessDao && r.Ok? ==> r.value == dct[key]
      ensures kind != FileAccessDao && r.Raise? ==> r.error == KeyError
      ensures kind == FileAccessDao ==> (r.Ok? <==> key == "hey")
      ensures kind == FileAccessDao && r.Raise? ==> r.error == AssertionError
      ensures kind == FileAccessDao && r.Ok? ==> fresh(r.value)
    {
      if kind == FileAccessDao {
        if key != "hey" {
          return Raise(AssertionError);
        }
        var o := new DataObject();
        return Ok(o);
      }
      if key !in dct {
        return Raise(KeyError);
      }
      return Ok(dct[key]);
    }

    /** `_write` (`_set`): the registry and the disk store assign the key, and the disk store
        then saves its dict; the file store does nothing. */
    method Write(key: string, value: DataObject)
      modifies this
      ensures dct == Stored(kind, old(dct), key, value)
      ensures file == if kind == DiskAccessDao then Some(dct) else old(file)
    {
      if kind != FileAccessDao {
        dct := dct[key := value];
      }
      if kind == DiskAccessDao {
        file := Some(dct);
      }
    }

    /** `get` as written: the guard named for a missing key raises KeyError when the key is
        there, so the registry and the disk store raise on every key; the file store raises
        KeyError on "str", answers "hey" and fails its assertion on any other key. */
    method Get(key: string) returns (r: Result<DataObject>)
      ensures Exists(key) ==> r == Raise(KeyError)
      ensures kind != FileAccessDao ==> r == Raise(KeyError)
      ensures kind == FileAccessDao ==> (r.Ok? <==> key == "hey")
      ensures kind == FileAccessDao && r.Raise? ==> r.error == (if key == "str" then KeyError else AssertionError)
    {
      if Exists(key) {
        return Raise(KeyError);
      }
      r := Read(key);
    }

    /** `set_unique_key` as written: the guard named for an existing key raises KeyError when
        the key is absent, so only a key already there is written. */
    method SetUniqueKey(key: string, value: DataObject) returns (r: Result<()>)
      modifies this
      ensures r.Ok? <==> old(Exists(key))
      ensures r.Raise? ==> r.error == KeyError && dct == old(dct) && file == old(file)
      ensures r.Ok? ==> dct == Stored(kind, old(dct), key, value)
      ensures r.Ok? ==> file == if kind == DiskAccessDao then Some(dct) else old(file)
    {
      if !Exists(key) {
        return Raise(KeyError);
      }
      Write(key, value);
      return Ok(());
    }

    /** `get` with the guard the method names: KeyError for a missing key, the stored value
        otherwise. */
    method GetChecked(key: string) returns (r: Result<DataObject>)
      ensures !Exists(key) ==> r == Raise(KeyError)
      ensures kind != FileAccessDao ==> (r.Ok? <==> key in dct)
      ensures kind != FileAccessDao && r.Ok? ==> r.value == dct[key]
      ensures kind == FileAccessDao && Exists(key) ==> r == Raise(AssertionError)
    {
      if !Exists(key) {
        return Raise(KeyError);
      }
      r := Read(key);
    }

    /** `set_unique_key` with the guard the method names: KeyError for a key already there,
        a write otherwise. */
    method SetUniqueKeyChecked(key: string, value: DataObject) returns (r: Result<()>)
      modifies this
      ensures r.Ok? <==> !old(Exists(key))
      ensures r.Raise? ==> r.error == KeyError && dct == old(dct) && file == old(file)
      ensures r.Ok? ==> dct == Stored(kind, old(dct), key, value)
      ensures r.Ok? ==> file == if kind == DiskAccessDao then Some(dct) else old(file)
    {
      if Exists(key) {
        return Raise(KeyError);
      }
      Write(key, value);
      return Ok(());
    }

    /** `set_if_key_missing`: a write only for an absent key, so no value is ever replaced;
        afterwards the registry and the disk store hold the key. */
    method SetIfKeyMissing(key: string, value: DataObject)
      modifies this
      ensures old(Exists(key)) ==> dct == old(dct) && file == old(file)
      ensures !old(Exists(key)) ==> dct == Stored(kind, old(dct), key, value)
      ensures !old(Exists(key)) ==> file == if kind == DiskAccessDao then Some(dct) else old(file)
      ensures forall k :: k in old(dct) ==> k in dct && dct[k] == old(dct)[k]
      ensures kind != FileAccessDao ==> Exists(key)
    {
      if !Exists(key) {
        Write(key, value);
      }
    }
  }

  /** With the guards as written, a key the registry has just been given cannot be read back. */
  method StoredKeyUnreadable(key: string, value: DataObject) returns (r: Result<DataObject>)
    ensures r == Raise(KeyError)
  {
    var d := new Dao.Registry();
    d.SetIfKeyMissing(key, value);
    assert d.Exists(key);
    r := d.Get(key);
  }

  /** With the guards the methods name, a unique key written to the registry reads back. */
  method StoredKeyReadable(key: string, value: DataObject) returns (r: Result<DataObject>)
    ensures r == Ok(value)
  {
    var d := new Dao.Registry();
    var w := d.SetUniqueKeyChecked(key, value);
    assert w.Ok?;
    r := d.GetChecked(key);
  }

  // ---------------------------------------------------------------------------
  // DataManager

  /** The first loop of `DataManager.get` over the DAOs: the value of the last DAO that has the
      key, or the exception of the first read that fails. */
  function Scan(daos: seq<Dao>, key: string): Result<Option<DataObject>>
    reads daos
  {
    if daos == [] then Ok(None)
    else
      var acc := Scan(daos[..|daos| - 1], key);
      var d := daos[|daos| - 1];
      if acc.Raise? || !d.Exists(key) then acc
      else if d.kind == FileAccessDao then Raise(AssertionError)
      else Ok(Some(d.dct[key]))
  }

  /** The DAOs lacking the key, each put in front of the ones found before it. */
  function Lacking(daos: seq<Dao>, key: string): seq<Dao>
    reads daos
  {
    if daos == [] then []
    else (if daos[|daos| - 1].Exists(key) then [] else [daos[|daos| - 1]]) + Lacking(daos[..|daos| - 1], key)
  }

  /** The DAOs lacking the key in list order. */
  function LackingInOrder(daos: seq<Dao>, key: string): seq<Dao>
    reads daos
  {
    if daos == [] then []
    else LackingInOrder(daos[..|daos| - 1], key) + (if daos[|daos| - 1].Exists(key) then [] else [daos[|daos| - 1]])
  }

  /** `insert(0, dao)` collects the DAOs lacking the key in the reverse of list order. */
  lemma {:induction false} LackingReversed(daos: seq<Dao>, key: string)
    ensures Lacking(daos, key) == Reverse(LackingInOrder(daos, key))
  {
    if daos != [] {
      var init := daos[..|daos| - 1];
      var d := daos[|daos| - 1];
      LackingReversed(init, key);
      var last := if d.Exists(key) then [] else [d];
      ReverseAppend(LackingInOrder(init, key), last);
      assert Reverse(last) == last;
    }
  }

  /** The collected DAOs are exactly those of the list that lack the key. */
  lemma {:induction false} LackingMembers(daos: seq<Dao>, key: string)
    ensures forall d :: d in Lacking(daos, key) <==> d in daos && !d.Exists(key)
  {
    if daos != [] {
      var init := daos[..|daos| - 1];
      LackingMembers(init, key);
      assert daos == init + [daos[|daos| - 1]];
    }
  }

  /** Each DAO of a list without repetitions is collected at most once. */
  lemma {:induction false} LackingDistinct(daos: seq<Dao>, key: string)
    requires forall i, j :: 0 <= i < j < |daos| ==> daos[i] != daos[j]
    ensures var l := Lacking(daos, key); forall i, j :: 0 <= i < j < |l| ==> l[i] != l[j]
  {
    if daos != [] {
      var init := daos[..|daos| - 1];
      LackingDistinct(init, key);
      LackingMembers(init, key);
      var d := daos[|daos| - 1];
      assert d !in init;
      var l := Lacking(daos, key);
      if !d.Exists(key) {
        assert l == [d] + Lacking(init, key);
        forall j | 0 < j < |l|
          ensures l[0] != l[j]
        {
          assert l[j] in Lacking(init, key);
        }
      }
    }
  }

  /** A value found comes from the last DAO in list order that has the key. */
  lemma {:induction false} ScanLastHolder(daos: seq<Dao>, key: string)
    requires Scan(daos, key).Ok? && Scan(daos, key).value.Some?
    ensures exists i :: (0 <= i < |daos| && daos[i].Exists(key) && daos[i].kind != FileAccessDao &&
      Scan(daos, key).value.value == daos[i].dct[key] &&
      forall j :: i < j < |daos| ==> !daos[j].Exists(key))
  {
    var n := |daos| - 1;
    var init := daos[..n];
    var d := daos[n];
    if !d.Exists(key) {
      ScanLastHolder(init, key);
      var i :| 0 <= i < |init| && init[i].Exists(key) && init[i].kind != FileAccessDao &&
        Scan(init, key).value.value == init[i].dct[key] &&
        forall j :: i < j < |init| ==> !init[j].Exists(key);
      assert forall j :: i < j < n ==> daos[j] == init[j];
    }
  }

  /** No DAO has the key: nothing is found. */
  lemma {:induction false} ScanNone(daos: seq<Dao>, key: string)
    requires forall i :: 0 <= i < |daos| ==> !daos[i].Exists(key)
    ensures Scan(daos, key) == Ok(None)
  {
    if daos != [] {
      var init := daos[..|daos| - 1];
      assert forall i :: 0 <= i < |init| ==> init[i] == daos[i];
      ScanNone(init, key);
    }
  }

  /** Once a read has failed the later DAOs are not asked. */
  lemma {:induction false} ScanRaisePersists(daos: seq<Dao>, key: string, i: nat)
    requires i <= |daos| && Scan(daos[..i], key).Raise?
    ensures Scan(daos, key) == Scan(daos[..i], key)
    decreases |daos| - i
  {
    if i < |daos| {
      assert daos[..i + 1][..i] == daos[..i];
      ScanRaisePersists(daos, key, i + 1);
    } else {
      assert daos[..i] == daos;
    }
  }

  class DataManager {
    /** `_data_access_objects`. */
    var daos: seq<Dao>

    /** A manager over a given DAO list (the source's constructor always raises, see
        `InitializeDaoList`). */
    constructor(daos: seq<Dao>)
      ensures this.daos == daos
    {
      this.daos := daos;
    }

    /** `_initialize_dao_list`: appends a registry and a file store, then tests the bound
        method `exists` of the last one against True; a method object is never True, so it
        always raises ValueError. */
    method InitializeDaoList() returns (r: Result<()>)
      modifies this
      ensures r == Raise(ValueError)
      ensures |daos| == |old(daos)| + 2 && daos[..|old(daos)|] == old(daos)
      ensures fresh(daos[|old(daos)|]) && daos[|old(daos)|].kind == RegistryDao
      ensures fresh(daos[|old(daos)| + 1]) && daos[|old(daos)| + 1].kind == FileAccessDao
    {
      var registry := new Dao.Registry();
      var fileAccess := new Dao.FileAccess();
      daos := daos + [registry];
      daos := daos + [fileAccess];
      return Raise(ValueError);
    }

    /** The first loop of `get`: reads the key from every DAO that has it, keeping the last
        value, and collects the others with `insert(0)`. */
    method CollectMissing(key: string) returns (found: Result<Option<DataObject>>, missing: seq<Dao>)
      ensures found == Scan(daos, key)
      ensures found.Ok? ==> missing == Lacking(daos, key)
    {
      found := Ok(None);
      missing := [];
      var i := 0;
      while i < |daos|
        invariant 0 <= i <= |daos|
        invariant found == Scan(daos[..i], key) && found.Ok?
        invariant missing == Lacking(daos[..i], key)
      {
        var dao := daos[i];
        assert daos[..i + 1][..i] == daos[..i];
        if dao.Exists(key) {
          var got := dao.GetChecked(key);
          if got.Raise? {
            ScanRaisePersists(daos, key, i + 1);
            return Raise(got.error), missing;
          }
          found := Ok(Some(got.value));
        } else {
          missing := [dao] + missing;
        }
        i := i + 1;
      }
      assert daos[..i] == daos;
    }

    /** `get`, over DAOs with the guards their methods name: the value of the last DAO that has
        the key, written into every DAO that lacks it. A failing read raises before anything is
        written, and when no DAO has the key the value is never bound (UnboundLocalError). */
    method Get(key: string) returns (r: Result<DataObject>)
      requires forall i, j :: 0 <= i < j < |daos| ==> daos[i] != daos[j]
      modifies set i | 0 <= i < |daos| :: daos[i]
      ensures old(Scan(daos, key)).Raise? ==> r == Raise(old(Scan(daos, key)).error)
      ensures old(Scan(daos, key)) == Ok(None) ==> r == Raise(UnboundLocalError)
      ensures old(Scan(daos, key)).Ok? && old(Scan(daos, key)).value.Some? ==> r == Ok(old(Scan(daos, key)).value.value)
      ensures r.Raise? ==> forall i :: 0 <= i < |daos| ==> daos[i].dct == old(daos[i].dct) && daos[i].file == old(daos[i].file)
      ensures r.Ok? ==> forall i :: 0 <= i < |daos| && old(daos[i].Exists(key)) ==>
        daos[i].dct == old(daos[i].dct) && daos[i].file == old(daos[i].file)
      ensures r.Ok? ==> forall i :: 0 <= i < |daos| && !old(daos[i].Exists(key)) ==>
        WrittenFrom(daos[i], old(daos[i].dct), old(daos[i].file), key, r.value)
    {
      var found, missing := CollectMissing(key);
      if found.Raise? {
        return Raise(found.error);
      }
      if found.value.None? {
        return Raise(UnboundLocalError);
      }
      var value := found.value.value;
      LackingMembers(daos, key);
      LackingDistinct(daos, key);
      assert forall j :: 0 <= j < |missing| ==> missing[j] in daos && !missing[j].Exists(key);
      CopyInto(missing, key, value);
      forall i | 0 <= i < |daos| && !old(daos[i].Exists(key))
        ensures WrittenFrom(daos[i], old(daos[i].dct), old(daos[i].file), key, value)
      {
        assert daos[i] in missing;
        var j :| 0 <= j < |missing| && missing[j] == daos[i];
      }
      return Ok(value);
    }
  }

  /** A DAO after a write of the value under the key, from the given dict and file. */
  predicate WrittenFrom(d: Dao, dct0: map<string, DataObject>, file0: Option<map<string, DataObject>>, key: string, value: DataObject)
    reads d
  {
    d.dct == Stored(d.kind, dct0, key, value) && d.file == if d.kind == DiskAccessDao then Some(d.dct) else file0
  }

  /** The second loop of `get`: `set_unique_key(key, value)` on each DAO that lacks the key. */
  method CopyInto(targets: seq<Dao>, key: string, value: DataObject)
    requires forall i, j :: 0 <= i < j < |targets| ==> targets[i] != targets[j]
    requires forall j :: 0 <= j < |targets| ==> !targets[j].Exists(key)
    modifies set j | 0 <= j < |targets| :: targets[j]
    ensures forall j :: 0 <= j < |targets| ==> WrittenFrom(targets[j], old(targets[j].dct), old(targets[j].file), key, value)
  {
    var k := 0;
    while k < |targets|
      invariant 0 <= k <= |targets|
      invariant forall j :: k <= j < |targets| ==> targets[j].dct == old(targets[j].dct) && targets[j].file == old(targets[j].file)
      invariant forall j :: 0 <= j < k ==> WrittenFrom(targets[j], old(targets[j].dct), old(targets[j].file), key, value)
    {
      var w := targets[k].SetUniqueKeyChecked(key, value);
      assert w.Ok?;
      k := k + 1;
    }
  }
}
