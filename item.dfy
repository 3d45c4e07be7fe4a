/** A grocery item: its name, category, whether it spoils quickly and the
    week it was last bought. Items are the same item exactly when their
    names are equal, and hash and print by name alone. */
module Items {
  import opened Basics

  /** `2^32`, the number of `int` values. */
  const Modulus: int := 0x1_0000_0000

  /** Java `int` arithmetic: the value congruent to `x` modulo `2^32` in the
      `int` range. */
  function Wrap(x: int): (r: int)
    ensures MinInt <= r <= MaxInt
  {
    (x - MinInt) % Modulus + MinInt
  }

  /** `String.hashCode`: `h = 31 * h + c` over the characters, in `int`
      arithmetic; the empty string hashes to 0. */
  function StringHash(s: string): (r: int)
    ensures MinInt <= r <= MaxInt
    decreases |s|
  {
    if s == [] then 0 else Wrap(31 * StringHash(s[..|s| - 1]) + s[|s| - 1] as int)
  }

  /** The documented value `s[0]*31^(n-1) + ... + s[n-1]`, without overflow. */
  ghost function HashPolynomial(s: string): int
    decreases |s|
  {
    if s == [] then 0 else 31 * HashPolynomial(s[..|s| - 1]) + s[|s| - 1] as int
  }

  /** Wrapping differs from the wrapped value by a whole number of `2^32`s. */
  lemma WrapOffset(x: int) returns (k: int)
    ensures Wrap(x) == x + k * Modulus
  {
    k := -((x - MinInt) / Modulus);
  }

  /** Wrapping sees only the value modulo `2^32`. */
  lemma WrapShift(x: int, k: int)
    ensures Wrap(x + k * Modulus) == Wrap(x)
  {
    var y := x - MinInt;
    var q, r := y / Modulus, y % Modulus;
    assert y + k * Modulus == (q + k) * Modulus + r;
  }

  /** The hash is the documented polynomial reduced to an `int`. */
  lemma {:induction false} StringHashIsPolynomial(s: string)
    ensures StringHash(s) == Wrap(HashPolynomial(s))
    decreases |s|
  {
    if s == [] {
      assert Wrap(0) == 0;
    } else {
      var init := s[..|s| - 1];
      var c := s[|s| - 1] as int;
      StringHashIsPolynomial(init);
      var p := HashPolynomial(init);
      var k := WrapOffset(p);
      assert 31 * Wrap(p) + c == 31 * p + c + (31 * k) * Modulus;
      WrapShift(31 * p + c, 31 * k);
    }
  }

  class Item {
    var name: string
    var category: string
    var timeSensitive: bool
    var lastPurchasedWeek: int

    /** A new item, not yet bought (week -1). */
    constructor (name: string, category: string, timeSensitive: bool)
      ensures this.name == name && this.category == category && this.timeSensitive == timeSensitive
      ensures lastPurchasedWeek == -1
    {
      this.name := name;
      this.category := category;
      this.timeSensitive := timeSensitive;
      this.lastPurchasedWeek := -1;
    }

    /** A new item with the default category and not time-sensitive. */
    constructor WithName(name: string)
      ensures this.name == name && category == "Uncategorized" && !timeSensitive
      ensures lastPurchasedWeek == -1
    {
      this.name := name;
      this.category := "Uncategorized";
      this.timeSensitive := false;
      this.lastPurchasedWeek := -1;
    }

    function GetName(): string
      reads this
    {
      name
    }

    method SetName(name: string)
      modifies this
      ensures GetName() == name
      ensures GetCategory() == old(GetCategory()) && IsTimeSensitive() == old(IsTimeSensitive())
      ensures GetLastPurchasedWeek() == old(GetLastPurchasedWeek())
    {
      this.name := name;
    }

    function GetCategory(): string
      reads this
    {
      category
    }

    method SetCategory(category: string)
      modifies this
      ensures GetCategory() == category
      ensures GetName() == old(GetName()) && IsTimeSensitive() == old(IsTimeSensitive())
      ensures GetLastPurchasedWeek() == old(GetLastPurchasedWeek())
    {
      this.category := category;
    }

    function IsTimeSensitive(): bool
      reads this
    {
      timeSensitive
    }

    method SetTimeSensitive(timeSensitive: bool)
      modifies this
      ensures IsTimeSensitive() == timeSensitive
      ensures GetName() == old(GetName()) && GetCategory() == old(GetCategory())
      ensures GetLastPurchasedWeek() == old(GetLastPurchasedWeek())
    {
      this.timeSensitive := timeSensitive;
    }

    function GetLastPurchasedWeek(): int
      reads this
    {
      lastPurchasedWeek
    }

    method SetLastPurchasedWeek(week: int)
      modifies this
      ensures GetLastPurchasedWeek() == week
      ensures GetName() == old(GetName()) && GetCategory() == old(GetCategory())
      ensures IsTimeSensitive() == old(IsTimeSensitive())
    {
      this.lastPurchasedWeek := week;
    }

    /** `equals`: the same object, or another item of the same name; never
        null and never an object of another class. */
    predicate Equals(obj: object?)
      reads this, obj
      ensures Equals(obj) <==> obj is Item && name == (obj as Item).name
    {
      if this == obj then true
      else if obj == null || !(obj is Item) then false
      else name == (obj as Item).name
    }

    /** `hashCode`: the hash of the name. */
    function HashCode(): (r: int)
      reads this
      ensures MinInt <= r <= MaxInt
      ensures r == Wrap(HashPolynomial(name))
    {
      StringHashIsPolynomial(name);
      StringHash(name)
    }

    /** `toString`: the name. */
    function ToString(): (r: string)
      reads this
      ensures r == GetName()
    {
      name
    }
  }

  /** Equality of items is an equivalence. */
  lemma EqualsIsEquivalence(a: Item, b: Item, c: Item)
    ensures a.Equals(a)
    ensures a.Equals(b) ==> b.Equals(a)
    ensures a.Equals(b) && b.Equals(c) ==> a.Equals(c)
  {
  }

  /** Equal items have equal hash codes, as `hashCode` must agree with `equals`. */
  lemma EqualItemsHashEqually(a: Item, b: Item)
    requires a.Equals(b)
    ensures a.HashCode() == b.HashCode()
  {
  }

  /** Two items are equal exactly when they print the same. */
  lemma EqualsIffSameText(a: Item, b: Item)
    ensures a.Equals(b) <==> a.ToString() == b.ToString()
  {
  }
}
