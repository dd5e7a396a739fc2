/** The planner's records: a to-do item and one day of the displayed week. */
module Types {
  datatype Item = Item(id: string, text: string)

  datatype DayData = DayData(date: string, dayName: string, items: seq<Item>, isToday: bool)

  /** `itemsRef.current[date] || []`: the items stored for a date, none when it has no bucket. */
  function Bucket(items: map<string, seq<Item>>, date: string): seq<Item> {
    if date in items then items[date] else []
  }
}
