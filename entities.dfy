/** The five records of the database (database/entities).
    Every id is a row id of its own table; the value 0 asks the store to
    assign a fresh id on insert. Timestamps are milliseconds supplied by
    the caller (the source reads the system clock for its defaults). */
module Entities {

  /** The id a record carries before the store has assigned one. */
  const UNASSIGNED: nat := 0

  /** Root of the hierarchy; has no foreign key. */
  datatype Site = Site(id: nat, name: string, createdAt: int)

  /** A billing period of one site; `name` is the display string, e.g. "Kasım 2025". */
  datatype Month = Month(id: nat, siteId: nat, name: string, year: int, monthNumber: int, createdAt: int)

  /** A building of one site; blocks belong to the site, not to a month. */
  datatype Block = Block(id: nat, siteId: nat, name: string, createdAt: int)

  /** A resident of one block. */
  datatype Person = Person(id: nat, blockId: nat, name: string, createdAt: int)

  /** The record of one person for one month. Amounts are kept as text. */
  datatype Payment = Payment(
    id: nat,
    personId: nat,
    monthId: nat,
    paidAmount: string,
    willPayAmount: string,
    isPaidEnabled: bool,
    isWillPayEnabled: bool,
    createdAt: int,
    updatedAt: int)

  /** `Site(name = n)` with the defaults of the data class. */
  function NewSite(name: string, now: int): Site {
    Site(UNASSIGNED, name, now)
  }

  /** `Month(siteId = .., name = .., year = .., monthNumber = ..)` with the defaults. */
  function NewMonth(siteId: nat, name: string, year: int, monthNumber: int, now: int): Month {
    Month(UNASSIGNED, siteId, name, year, monthNumber, now)
  }

  /** `Block(siteId = .., name = ..)` with the defaults. */
  function NewBlock(siteId: nat, name: string, now: int): Block {
    Block(UNASSIGNED, siteId, name, now)
  }

  /** `Person(blockId = .., name = ..)` with the defaults. */
  function NewPerson(blockId: nat, name: string, now: int): Person {
    Person(UNASSIGNED, blockId, name, now)
  }

  /** `Payment(personId = .., monthId = ..)` with every default: amounts "0",
      both flags off, both timestamps the construction time. */
  function DefaultPayment(personId: nat, monthId: nat, now: int): Payment {
    Payment(UNASSIGNED, personId, monthId, "0", "0", false, false, now, now)
  }
}
