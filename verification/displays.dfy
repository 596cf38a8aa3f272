/** The observers: `PhoneDisplay`, `WebAppDisplay` and `OutdoorDisplay`.
    The three classes differ only in the label they print, so one datatype
    with a `Kind` tag stands for all of them. */
module Displays {
  import opened Outcomes
  import opened Readings

  datatype Kind = Phone | WebApp | Outdoor

  /** An observer: its final id and the last reading it received (null until
      the first `update`). */
  datatype Display = Display(kind: Kind, id: string, lastData: Option<Reading>)
  {
    function GetId(): string { id }
    function GetLastData(): Option<Reading> { lastData }
  }

  /** The constructor of each display class. */
  function NewDisplay(kind: Kind, id: string): (d: Display)
    ensures d.GetId() == id
    ensures d.kind == kind
    ensures d.GetLastData() == None
  {
    Display(kind, id, None)
  }

  /** `update(data)`: records the reading; the id never changes. */
  function Update(d: Display, data: Reading): (d': Display)
    ensures d'.GetLastData() == Some(data)
    ensures d'.GetId() == d.GetId() && d'.kind == d.kind
  {
    d.(lastData := Some(data))
  }

  /** Only the latest update is remembered. */
  lemma LaterUpdateOverwrites(d: Display, a: Reading, b: Reading)
    ensures Update(Update(d, a), b) == Update(d, b)
  {
  }

  /** The life of one display of any kind (the three display classes are
      identical apart from their printed label): id as constructed, no data
      before the first update, the reading of the latest update after it. */
  lemma Lifecycle(kind: Kind, id: string, a: Reading, b: Reading)
    ensures NewDisplay(kind, id).GetId() == id
    ensures NewDisplay(kind, id).GetLastData() == None
    ensures Update(NewDisplay(kind, id), a).GetLastData() == Some(a)
    ensures Update(Update(NewDisplay(kind, id), a), b).GetLastData() == Some(b)
    ensures Update(Update(NewDisplay(kind, id), a), b).GetId() == id
  {
  }
}
