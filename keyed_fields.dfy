/**
 * The parsed form of a keyed trigger line, as the decoder consumes it.
 *
 * The parser itself (`icarus::details::KeyedCSVparser`) is not part of this
 * model: its output is taken as a map from each key to the value strings that
 * follow it, and the conversion of one value string to `unsigned int` is a
 * partial function supplied from outside.
 */
module KeyedFields {
  import opened MachineInts
  import opened Results

  /** The keys of one parsed line and the values each carries. */
  type ParsedData = map<string, seq<string>>

  /** One key of a parsed line with its values. */
  datatype Item = Item(key: string, values: seq<string>)

  /** Why `getNumber` could not produce a number. */
  datatype ValueError =
    | NoSuchValue(key: string, index: nat)
    | NotANumber(key: string, index: nat)

  /** `ParsedData::findItem`: the item of `key`, `None` when the line has no such key. */
  function FindItem(data: ParsedData, key: string): (item: Option<Item>)
    ensures item.Some? <==> key in data
    ensures item.Some? ==> item.value.key == key && item.value.values == data[key]
    ensures item.Some? ==> NValues(item.value) == |data[key]|
  {
    if key in data then Some(Item(key, data[key])) else None
  }

  /** `Item::nValues`: how many values follow the key. */
  function NValues(item: Item): nat
  {
    |item.values|
  }

  /**
   * `Item::getNumber<unsigned int>(index)`: the value at `index` converted by
   * `toUnsigned`; fails when there is no such value or it does not convert.
   */
  function GetNumber(item: Item, index: nat, toUnsigned: string -> Option<u32>): (r: Result<u32, ValueError>)
    ensures r.Success? <==> index < NValues(item) && toUnsigned(item.values[index]).Some?
    ensures r.Success? ==> r.value == toUnsigned(item.values[index]).value
    ensures index >= NValues(item) ==> r == Failure(NoSuchValue(item.key, index))
  {
    if index >= |item.values| then
      Failure(NoSuchValue(item.key, index))
    else match toUnsigned(item.values[index])
      case None => Failure(NotANumber(item.key, index))
      case Some(n) => Success(n)
  }
}
