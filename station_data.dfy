/**
 * The server's station record (data/Station.java): a fixed code and
 * mutable names, world coordinates and position number.
 */
module StationData {

  /** The world bounds a station may stand in: |x|, |z| up to 30,000,000 and |y| up to 2048. */
  const HorizontalLimit: int := 30_000_000
  const VerticalLimit: int := 2048

  /** isValidCoordinate, on plain coordinates. */
  predicate InWorld(x: int, y: int, z: int)
  {
    -HorizontalLimit <= x <= HorizontalLimit && -VerticalLimit <= y <= VerticalLimit && -HorizontalLimit <= z <= HorizontalLimit
  }

  class Station {
    /** The code is the station's identity: it never changes, and Java's equals and hashCode use it alone. */
    const code: string
    var name: string
    var enName: string
    var x: int
    var y: int
    var z: int
    var stationNumber: int

    /** Station(code, name): no English name, at the origin, position 0 — a valid coordinate. */
    constructor (code: string, name: string)
      ensures this.code == code && this.name == name && enName == ""
      ensures x == 0 && y == 0 && z == 0 && stationNumber == 0
      ensures IsValidCoordinate()
    {
      this.code := code;
      this.name := name;
      enName := "";
      x, y, z := 0, 0, 0;
      stationNumber := 0;
    }

    /** Station(code, name, enName, x, y, z): position 0. */
    constructor Located(code: string, name: string, enName: string, x: int, y: int, z: int)
      ensures this.code == code && this.name == name && this.enName == enName
      ensures this.x == x && this.y == y && this.z == z && stationNumber == 0
    {
      this.code := code;
      this.name := name;
      this.enName := enName;
      this.x, this.y, this.z := x, y, z;
      stationNumber := 0;
    }

    /** Station(code, name, enName, x, y, z, stationNumber). */
    constructor Numbered(code: string, name: string, enName: string, x: int, y: int, z: int, stationNumber: int)
      ensures this.code == code && this.name == name && this.enName == enName
      ensures this.x == x && this.y == y && this.z == z && this.stationNumber == stationNumber
    {
      this.code := code;
      this.name := name;
      this.enName := enName;
      this.x, this.y, this.z := x, y, z;
      this.stationNumber := stationNumber;
    }

    method SetName(name: string)
      modifies this
      ensures this.name == name
      ensures enName == old(enName) && x == old(x) && y == old(y) && z == old(z) && stationNumber == old(stationNumber)
    {
      this.name := name;
    }

    method SetEnName(enName: string)
      modifies this
      ensures this.enName == enName
      ensures name == old(name) && x == old(x) && y == old(y) && z == old(z) && stationNumber == old(stationNumber)
    {
      this.enName := enName;
    }

    method SetX(x: int)
      modifies this
      ensures this.x == x
      ensures name == old(name) && enName == old(enName) && y == old(y) && z == old(z) && stationNumber == old(stationNumber)
    {
      this.x := x;
    }

    method SetY(y: int)
      modifies this
      ensures this.y == y
      ensures name == old(name) && enName == old(enName) && x == old(x) && z == old(z) && stationNumber == old(stationNumber)
    {
      this.y := y;
    }

    method SetZ(z: int)
      modifies this
      ensures this.z == z
      ensures name == old(name) && enName == old(enName) && x == old(x) && y == old(y) && stationNumber == old(stationNumber)
    {
      this.z := z;
    }

    method SetStationNumber(n: int)
      modifies this
      ensures stationNumber == n
      ensures name == old(name) && enName == old(enName) && x == old(x) && y == old(y) && z == old(z)
    {
      stationNumber := n;
    }

    /** setCoordinates: moves the station and changes nothing else. */
    method SetCoordinates(x: int, y: int, z: int)
      modifies this
      ensures this.x == x && this.y == y && this.z == z
      ensures name == old(name) && enName == old(enName) && stationNumber == old(stationNumber)
      ensures IsValidCoordinate() <==> InWorld(x, y, z)
    {
      this.x, this.y, this.z := x, y, z;
    }

    /** isValidCoordinate: inside the world bounds. */
    predicate IsValidCoordinate()
      reads this
    {
      InWorld(x, y, z)
    }

    /** equals: the same code. */
    predicate SameStation(other: Station)
    {
      code == other.code
    }
  }

  /** The bounds are inclusive and symmetric; one step past any of them is out. */
  lemma InWorldBounds(x: int, y: int, z: int)
    ensures InWorld(x, y, z) <==> InWorld(-x, -y, -z)
    ensures InWorld(HorizontalLimit, VerticalLimit, -HorizontalLimit)
    ensures !InWorld(HorizontalLimit + 1, y, z) && !InWorld(x, VerticalLimit + 1, z) && !InWorld(x, y, -HorizontalLimit - 1)
  {
  }
}
