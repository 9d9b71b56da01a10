/**
 * `STRUCTURE_OPTIONS`: the five preset allocations of planned minutes per
 * project and day. The presets are informational; nothing in the store
 * checks tasks against them.
 */
module StructureOptions {
  import opened Types

  /** The five preset week structures are numbered 1 to 5. */
  type StructureId = n: int | 1 <= n <= 5 witness 1

  /** Planned minutes per project for one day of a preset. */
  datatype DayStructure = DayStructure(foundation: int, drive: int, joy: int, reflection: int)

  function DayMinutes(s: DayStructure): int
  {
    s.foundation + s.drive + s.joy + s.reflection
  }

  predicate IsWeekday(d: Day)
  {
    d != Sat && d != Sun
  }

  /** Preset 1: 90 minutes a day; Ф25 Д50 К15 on weekdays, К90 on СБ, Ф60 Р30 on ВС. */
  function Preset1(d: Day): (s: DayStructure)
    ensures DayMinutes(s) == 90
  {
    if d == Sat then DayStructure(0, 0, 90, 0)
    else if d == Sun then DayStructure(60, 0, 0, 30)
    else DayStructure(25, 50, 15, 0)
  }

  /** Preset 2: 45 minutes on weekdays (Ф10 Д30 К5), three hours on each weekend day. */
  function Preset2(d: Day): (s: DayStructure)
    ensures DayMinutes(s) == if IsWeekday(d) then 45 else 180
  {
    if d == Sat then DayStructure(0, 0, 180, 0)
    else if d == Sun then DayStructure(150, 0, 0, 30)
    else DayStructure(10, 30, 5, 0)
  }

  /** Preset 3: an hour on weekdays (Ф10 Д45 К5), two and a half hours on each weekend day. */
  function Preset3(d: Day): (s: DayStructure)
    ensures DayMinutes(s) == if IsWeekday(d) then 60 else 150
  {
    if d == Sat then DayStructure(0, 0, 150, 0)
    else if d == Sun then DayStructure(120, 0, 0, 30)
    else DayStructure(10, 45, 5, 0)
  }

  /** Preset 4: two and a half hours on ПН, СР, ПТ and ВС, nothing on the other days. */
  function Preset4(d: Day): (s: DayStructure)
    ensures DayMinutes(s) == if d == Mon || d == Wed || d == Fri || d == Sun then 150 else 0
  {
    if d == Mon || d == Wed || d == Fri then DayStructure(60, 75, 15, 0)
    else if d == Sun then DayStructure(120, 0, 0, 30)
    else DayStructure(0, 0, 0, 0)
  }

  /** Preset 5: three hours on ПН, СР and ВС, nothing on the other days. */
  function Preset5(d: Day): (s: DayStructure)
    ensures DayMinutes(s) == if d == Mon || d == Wed || d == Sun then 180 else 0
  {
    if d == Mon || d == Wed then DayStructure(60, 90, 30, 0)
    else if d == Sun then DayStructure(60, 0, 90, 30)
    else DayStructure(0, 0, 0, 0)
  }

  /** `STRUCTURE_OPTIONS`: the preset table, indexed by option and day. */
  function Structure(option: StructureId, d: Day): (s: DayStructure)
    ensures s.reflection == (if d == Sun then 30 else 0)
  {
    if option == 1 then Preset1(d)
    else if option == 2 then Preset2(d)
    else if option == 3 then Preset3(d)
    else if option == 4 then Preset4(d)
    else Preset5(d)
  }
}
