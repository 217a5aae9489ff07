/**
 * hrmulator/Memory.py: the floor of numbered tiles.  The store is sparse (a
 * tile that was never written is empty, which differs from holding 0), and
 * labels are names for tile indices.  The reads are functions of the two maps;
 * the class Memory holds the maps and its methods update them in place.
 */
module Memory {
  import opened Wrappers

  /** What a tile, the accumulator, the inbox and the outbox hold: an int or one character. */
  datatype Value = Int(i: int) | Char(c: char)

  /** A tile argument or jump destination as the assembler leaves it: an int, or a name still to be looked up. */
  datatype Key = Index(i: int) | Name(name: string)

  datatype MemError =
    | UnknownLabel(key: Key)   // the KeyError of resolve_key
    | TileIsEmpty(key: Key)    // MemoryTileIsEmptyError, carrying the key that was read
    | NoSuchTile(index: int)   // the KeyError of `del` on a tile that holds nothing

  /** A stored value used as a key again, for indirection: an int is an index, a character a (one-letter) label. */
  function AsKey(v: Value): (k: Key)
    ensures v.Int? <==> k.Index?
    ensures v.Int? ==> k == Index(v.i)
    ensures v.Char? ==> k == Name([v.c])
  {
    match v
    case Int(i) => Index(i)
    case Char(c) => Name([c])
  }

  /** `resolve_key`: an int passes through, a bound label gives its index, anything else is a KeyError. */
  function ResolveKey(labels: map<string, int>, key: Key): (r: Result<int, MemError>)
    ensures r.Ok? <==> key.Index? || key.name in labels
    ensures r.Err? ==> r.error == UnknownLabel(key)
  {
    match key
    case Index(i) => Ok(i)
    case Name(n) => if n in labels then Ok(labels[n]) else Err(UnknownLabel(key))
  }

  /** `m[key]`: the value on the resolved tile; a tile that holds nothing is an error naming `key`. */
  function GetItem(tiles: map<int, Value>, labels: map<string, int>, key: Key): (r: Result<Value, MemError>)
    ensures r.Ok? <==> ResolveKey(labels, key).Ok? && ResolveKey(labels, key).value in tiles
    ensures r.Ok? ==> r.value == tiles[ResolveKey(labels, key).value]
    ensures ResolveKey(labels, key).Ok? && r.Err? ==> r.error == TileIsEmpty(key)
  {
    var index :- ResolveKey(labels, key);
    if index in tiles then Ok(tiles[index]) else Err(TileIsEmpty(key))
  }

  /** `get(key, indirect=...)`: one read, or a second read through the value the first one found. */
  function Get(tiles: map<int, Value>, labels: map<string, int>, key: Key, indirect: bool): Result<Value, MemError>
  {
    var v :- GetItem(tiles, labels, key);
    if indirect then GetItem(tiles, labels, AsKey(v)) else Ok(v)
  }

  /**
   * The tile `set(key, value, indirect=...)` writes: the resolved tile, or the
   * tile named by the value found there.  The indirect read goes through the
   * already-resolved index, so an empty tile is reported by its index.
   */
  function SetTarget(tiles: map<int, Value>, labels: map<string, int>, key: Key, indirect: bool): Result<int, MemError>
  {
    var index :- ResolveKey(labels, key);
    if indirect then
      var v :- GetItem(tiles, labels, Index(index));
      ResolveKey(labels, AsKey(v))
    else
      Ok(index)
  }

  /** The tiles after storing `values` in order, as the constructor does; the first unresolvable key stops it. */
  function StoreAll(tiles: map<int, Value>, labels: map<string, int>, values: seq<(Key, Value)>): Result<map<int, Value>, MemError>
    decreases |values|
  {
    if values == [] then Ok(tiles)
    else
      var index :- ResolveKey(labels, values[0].0);
      StoreAll(tiles[index := values[0].1], labels, values[1..])
  }

  class Memory {
    var tiles: map<int, Value>
    var labelMap: map<string, int>

    /** A memory with the given labels and no tile written. */
    constructor (labels: map<string, int>)
      ensures labelMap == labels && tiles == map[]
    {
      labelMap := labels;
      tiles := map[];
    }

    /** `Memory(labels, values)`: copy the labels, then store each initial value through label resolution. */
    static method Create(labels: map<string, int>, values: seq<(Key, Value)>) returns (r: Result<Memory, MemError>)
      ensures StoreAll(map[], labels, values).Ok? <==> r.Ok?
      ensures r.Ok? ==> fresh(r.value) && r.value.labelMap == labels
      ensures r.Ok? ==> r.value.tiles == StoreAll(map[], labels, values).value
      ensures r.Err? ==> r.error == StoreAll(map[], labels, values).error
    {
      var m := new Memory(labels);
      for i := 0 to |values|
        invariant m.labelMap == labels
        invariant StoreAll(m.tiles, labels, values[i..]) == StoreAll(map[], labels, values)
      {
        assert values[i..][1..] == values[i + 1..];
        var outcome := m.SetItem(values[i].0, values[i].1);
        if outcome.Fail? {
          return Err(outcome.error);
        }
      }
      assert values[|values|..] == [];
      return Ok(m);
    }

    /** `label_tile(key, label)`: bind the name to the index `key` resolves to, replacing any earlier binding of that name. */
    method LabelTile(key: Key, name: string) returns (r: Outcome<MemError>)
      modifies this
      ensures tiles == old(tiles)
      ensures match ResolveKey(old(labelMap), key)
        case Ok(index) => r == Pass && labelMap == old(labelMap)[name := index]
        case Err(e) => r == Fail(e) && labelMap == old(labelMap)
    {
      var index := ResolveKey(labelMap, key);
      if index.Err? {
        return Fail(index.error);
      }
      labelMap := labelMap[name := index.value];
      return Pass;
    }

    /** `m[key] = value`: write the resolved tile. */
    method SetItem(key: Key, value: Value) returns (r: Outcome<MemError>)
      modifies this
      ensures labelMap == old(labelMap)
      ensures match ResolveKey(labelMap, key)
        case Ok(index) => r == Pass && tiles == old(tiles)[index := value]
        case Err(e) => r == Fail(e) && tiles == old(tiles)
    {
      var index := ResolveKey(labelMap, key);
      if index.Err? {
        return Fail(index.error);
      }
      tiles := tiles[index.value := value];
      return Pass;
    }

    /** `set(key, value, indirect=...)`: write the tile SetTarget names; nothing changes when that fails. */
    method Set(key: Key, value: Value, indirect: bool) returns (r: Outcome<MemError>)
      modifies this
      ensures labelMap == old(labelMap)
      ensures match SetTarget(old(tiles), labelMap, key, indirect)
        case Ok(index) => r == Pass && tiles == old(tiles)[index := value]
        case Err(e) => r == Fail(e) && tiles == old(tiles)
    {
      var index := ResolveKey(labelMap, key);
      if index.Err? {
        return Fail(index.error);
      }
      var target := index.value;
      if indirect {
        var pointer := GetItem(tiles, labelMap, Index(target));
        if pointer.Err? {
          return Fail(pointer.error);
        }
        var resolved := ResolveKey(labelMap, AsKey(pointer.value));
        if resolved.Err? {
          return Fail(resolved.error);
        }
        target := resolved.value;
      }
      tiles := tiles[target := value];
      return Pass;
    }

    /** `del m[key]`: empty the resolved tile; deleting a tile that holds nothing is a KeyError. */
    method DelItem(key: Key) returns (r: Outcome<MemError>)
      modifies this
      ensures labelMap == old(labelMap)
      ensures match ResolveKey(labelMap, key)
        case Ok(index) =>
          if index in old(tiles) then r == Pass && tiles == old(tiles) - {index}
          else r == Fail(NoSuchTile(index)) && tiles == old(tiles)
        case Err(e) => r == Fail(e) && tiles == old(tiles)
    {
      var index := ResolveKey(labelMap, key);
      if index.Err? {
        return Fail(index.error);
      }
      if index.value !in tiles {
        return Fail(NoSuchTile(index.value));
      }
      tiles := tiles - {index.value};
      return Pass;
    }
  }

  /** An int key is its own index and a bound label its target; a digit string such as "5" is only a label. */
  lemma ResolveKeyCases(labels: map<string, int>, n: int, name: string)
    ensures ResolveKey(labels, Index(n)) == Ok(n)
    ensures name in labels ==> ResolveKey(labels, Name(name)) == Ok(labels[name])
    ensures name !in labels ==> ResolveKey(labels, Name(name)) == Err(UnknownLabel(Name(name)))
    ensures "5" !in labels ==> ResolveKey(labels, Name("5")).Err?
  {
  }

  /**
   * After `m[key] = v`, reading any key that resolves to the same index (the
   * index itself or any label bound to it) gives `v`; every other read is as before.
   */
  lemma ReadAfterWrite(tiles: map<int, Value>, labels: map<string, int>, key: Key, v: Value, other: Key)
    requires ResolveKey(labels, key).Ok?
    ensures var written := tiles[ResolveKey(labels, key).value := v];
      GetItem(written, labels, other) ==
        if ResolveKey(labels, other) == ResolveKey(labels, key) then Ok(v) else GetItem(tiles, labels, other)
  {
  }

  /** After `label_tile(key, label)` the label reads the tile `key` does; other labels keep their targets. */
  lemma LabelAliasesTile(labels: map<string, int>, key: Key, name: string, other: string)
    requires ResolveKey(labels, key).Ok?
    requires other != name
    ensures var relabelled := labels[name := ResolveKey(labels, key).value];
      && ResolveKey(relabelled, Name(name)) == ResolveKey(labels, key)
      && ResolveKey(relabelled, Name(other)) == ResolveKey(labels, Name(other))
  {
  }

  /**
   * An indirect read is a read through the value found on the first tile: an
   * int value is an index, and a character works only when it is itself a bound label.
   */
  lemma IndirectGetIsTwoReads(tiles: map<int, Value>, labels: map<string, int>, key: Key)
    requires GetItem(tiles, labels, key).Ok?
    ensures var first := GetItem(tiles, labels, key).value;
      && Get(tiles, labels, key, true) == GetItem(tiles, labels, AsKey(first))
      && (first.Char? && [first.c] !in labels ==> Get(tiles, labels, key, true) == Err(UnknownLabel(Name([first.c]))))
      && (first.Int? ==> Get(tiles, labels, key, true) == GetItem(tiles, labels, Index(first.i)))
  {
  }

  /** An indirect read of an empty tile, or through an empty tile, fails as the first empty read does. */
  lemma IndirectGetEmpty(tiles: map<int, Value>, labels: map<string, int>, key: Key)
    requires GetItem(tiles, labels, key).Err?
    ensures Get(tiles, labels, key, true) == GetItem(tiles, labels, key)
    ensures Get(tiles, labels, key, false) == GetItem(tiles, labels, key)
  {
  }

  /**
   * `set(key, v, indirect=True)` writes the tile whose index is stored on the
   * tile `key` names, which keeps its value (unless it points at itself), and
   * fails, changing nothing, when that tile is empty.
   */
  lemma IndirectSetWritesPointee(tiles: map<int, Value>, labels: map<string, int>, key: Key, v: Value)
    requires ResolveKey(labels, key).Ok?
    ensures var index := ResolveKey(labels, key).value;
      index !in tiles ==> SetTarget(tiles, labels, key, true) == Err(TileIsEmpty(Index(index)))
    ensures var index := ResolveKey(labels, key).value;
      index in tiles ==> SetTarget(tiles, labels, key, true) == ResolveKey(labels, AsKey(tiles[index]))
    ensures var index := ResolveKey(labels, key).value;
      SetTarget(tiles, labels, key, true).Ok? && SetTarget(tiles, labels, key, true).value != index ==>
        var written := tiles[SetTarget(tiles, labels, key, true).value := v];
        && GetItem(written, labels, key) == GetItem(tiles, labels, key)
        && Get(written, labels, key, true) == Ok(v)
  {
    var index := ResolveKey(labels, key).value;
    var target := SetTarget(tiles, labels, key, true);
    if target.Ok? && target.value != index {
      var written := tiles[target.value := v];
      assert GetItem(written, labels, key) == GetItem(tiles, labels, key);
      ReadAfterWrite(tiles, labels, Index(target.value), v, AsKey(tiles[index]));
    }
  }

  /** A direct `set` writes the tile `m[key] = v` writes. */
  lemma DirectSetIsSetItem(tiles: map<int, Value>, labels: map<string, int>, key: Key)
    ensures SetTarget(tiles, labels, key, false) == ResolveKey(labels, key)
  {
  }

  /** After `del m[key]` the tile reads as empty again. */
  lemma DeleteEmptiesTile(tiles: map<int, Value>, labels: map<string, int>, key: Key)
    requires ResolveKey(labels, key).Ok?
    ensures GetItem(tiles - {ResolveKey(labels, key).value}, labels, key) == Err(TileIsEmpty(key))
  {
  }

  /** The constructor succeeds exactly when every initial key resolves. */
  lemma {:induction false} StoreAllSucceeds(tiles: map<int, Value>, labels: map<string, int>, values: seq<(Key, Value)>)
    ensures StoreAll(tiles, labels, values).Ok? <==> forall j :: 0 <= j < |values| ==> ResolveKey(labels, values[j].0).Ok?
    decreases |values|
  {
    if values != [] {
      var rest := values[1..];
      if ResolveKey(labels, values[0].0).Ok? {
        StoreAllSucceeds(tiles[ResolveKey(labels, values[0].0).value := values[0].1], labels, rest);
        assert forall j :: 1 <= j < |values| ==> values[j] == rest[j - 1];
      }
    }
  }

  /**
   * Storing one more pair after the others writes that pair's tile last: the
   * constructor gives each tile the value of the last pair that resolves to it.
   */
  lemma {:induction false} StoreAllLastWins(tiles: map<int, Value>, labels: map<string, int>, values: seq<(Key, Value)>, key: Key, v: Value)
    requires StoreAll(tiles, labels, values).Ok?
    ensures StoreAll(tiles, labels, values + [(key, v)]) ==
      match ResolveKey(labels, key)
      case Ok(index) => Ok(StoreAll(tiles, labels, values).value[index := v])
      case Err(e) => Err(e)
    decreases |values|
  {
    if values == [] {
      assert values + [(key, v)] == [(key, v)];
    } else {
      var first := ResolveKey(labels, values[0].0).value;
      var rest := values[1..];
      StoreAllLastWins(tiles[first := values[0].1], labels, rest, key, v);
      assert (values + [(key, v)])[1..] == rest + [(key, v)];
    }
  }

  /** hrmulator/tests/test_Memory.py: two labels on tile 0, an initial value stored through one of them. */
  lemma ConstructWithLabelsAndValues()
    ensures var labels := map["hello" := 0, "goodbye" := 0];
      && StoreAll(map[], labels, [(Name("hello"), Int(74))]) == Ok(map[0 := Int(74)])
      && GetItem(map[0 := Int(74)], labels, Name("goodbye")) == Ok(Int(74))
      && GetItem(map[0 := Int(74)], labels, Index(0)) == Ok(Int(74))
      && GetItem(map[0 := Int(74)], labels, Index(1)) == Err(TileIsEmpty(Index(1)))
  {
  }
}
