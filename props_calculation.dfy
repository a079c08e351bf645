/**
 * The props-calculation page: values a user card derives from the form fields,
 * and a shopping cart whose quantities are edited and whose count, total and
 * average price are derived from the item list.
 */
module PropsCalculation {
  import opened Wrappers
  import opened Text
  import opened Lists
  import opened Averages

  // ---------------------------------------------------------------- user card

  /** The age from which the card says "Adult". */
  const AdultAge := 18

  /** `${firstName} ${lastName}`: the first name, one space, the last name. */
  function FullName(firstName: string, lastName: string): (r: string)
    ensures |r| == |firstName| + 1 + |lastName|
    ensures r[..|firstName|] == firstName && r[|firstName|] == ' '
    ensures r[|firstName| + 1..] == lastName
  {
    firstName + " " + lastName
  }

  /** Names without spaces can be read back from the full name by splitting at the space. */
  lemma FullNameSplits(firstName: string, lastName: string)
    requires ' ' !in firstName && ' ' !in lastName
    ensures Split(FullName(firstName, lastName), ' ') == [firstName, lastName]
  {
    assert Join([firstName, lastName], ' ') == FullName(firstName, lastName) by {
      assert [firstName, lastName][1..] == [lastName];
    }
    SplitJoin([firstName, lastName], ' ');
  }

  /** `${s[0]}`: the first character, or the text "undefined" when `s` is empty. */
  function FirstOrUndefined(s: string): (r: string)
    ensures s != [] ==> r == s[..1]
    ensures s == [] ==> r == "undefined"
  {
    if s == [] then "undefined" else [s[0]]
  }

  /**
   * `${firstName[0]}${lastName[0]}`.toUpperCase(): the two first letters in upper
   * case; an empty name contributes "UNDEFINED".
   */
  function Initials(firstName: string, lastName: string): (r: string)
    ensures firstName != [] && lastName != [] ==>
              r == [UpperChar(firstName[0]), UpperChar(lastName[0])]
    ensures firstName == [] && lastName != [] ==> r == "UNDEFINED" + [UpperChar(lastName[0])]
    ensures firstName != [] && lastName == [] ==> r == [UpperChar(firstName[0])] + "UNDEFINED"
    ensures firstName == [] && lastName == [] ==> r == "UNDEFINEDUNDEFINED"
  {
    InitialsParts(FirstOrUndefined(firstName), FirstOrUndefined(lastName));
    UpperOfFirst(firstName);
    UpperOfFirst(lastName);
    ToUpper(FirstOrUndefined(firstName) + FirstOrUndefined(lastName))
  }

  /** Upper-casing two joined pieces upper-cases each piece. */
  lemma InitialsParts(a: string, b: string)
    ensures ToUpper(a + b) == ToUpper(a) + ToUpper(b)
  {
  }

  /** One name's part of the initials: its upper-cased first letter, or "UNDEFINED". */
  lemma UpperOfFirst(s: string)
    ensures ToUpper(FirstOrUndefined(s)) == if s == [] then "UNDEFINED" else [UpperChar(s[0])]
  {
    var u := ToUpper("undefined");
    assert u[0] == 'U' && u[1] == 'N' && u[2] == 'D' && u[3] == 'E' && u[4] == 'F';
    assert u[5] == 'I' && u[6] == 'N' && u[7] == 'E' && u[8] == 'D';
  }

  /** The card says "Adult" exactly from age 18 on. */
  function IsAdult(age: int): (adult: bool)
    ensures adult <==> age >= AdultAge
  {
    age >= AdultAge
  }

  /**
   * `email.split('@')[1]`: absent exactly when the email has no '@'; otherwise the
   * text after the first '@', which holds no '@' itself.
   */
  function EmailDomain(email: string): (domain: Option<string>)
    ensures domain.None? <==> '@' !in email
    ensures domain.Some? ==> '@' !in domain.value
  {
    var parts := Split(email, '@');
    if |parts| > 1 then Some(parts[1]) else None
  }

  /** The domain is the text between the first '@' and the next '@' or the end. */
  lemma EmailDomainOf(local: string, domain: string, rest: string)
    requires '@' !in local && '@' !in domain
    requires rest == [] || rest[0] == '@'
    ensures EmailDomain(local + ['@'] + domain + rest) == Some(domain)
  {
    var email := local + ['@'] + domain + rest;
    assert email == local + ['@'] + (domain + rest);
    SplitAfterFirst(local, '@', domain + rest);
    SplitFirstPiece(domain, '@', rest);
  }

  // ---------------------------------------------------------------- shopping cart

  /** A cart line; prices are in cents. */
  datatype CartItem = CartItem(name: string, price: int, quantity: int)

  predicate QuantitiesNonNegative(items: seq<CartItem>)
  {
    forall k :: 0 <= k < |items| ==> items[k].quantity >= 0
  }

  function Max(a: int, b: int): int
  {
    if a >= b then a else b
  }

  /** `items.reduce((sum, item) => sum + item.quantity, 0)`: never negative in a cart without negative quantities. */
  function ItemCount(items: seq<CartItem>): (n: int)
    ensures QuantitiesNonNegative(items) ==> n >= 0
    ensures items == [] ==> n == 0
  {
    if items == [] then 0
    else
      assert QuantitiesNonNegative(items) ==> QuantitiesNonNegative(items[1..]);
      items[0].quantity + ItemCount(items[1..])
  }

  /**
   * `items.reduce((sum, item) => sum + item.price * item.quantity, 0)`: 0 for an
   * empty cart, never negative when no price or quantity is.
   */
  function Total(items: seq<CartItem>): (t: int)
    ensures items == [] ==> t == 0
    ensures (forall k :: 0 <= k < |items| ==> items[k].price >= 0 && items[k].quantity >= 0) ==> t >= 0
  {
    if items == [] then 0 else items[0].price * items[0].quantity + Total(items[1..])
  }

  /** `itemCount > 0 ? total / itemCount : 0`: never a division by zero; 0 for an empty count. */
  function AveragePrice(items: seq<CartItem>): (avg: Ratio)
    ensures avg.den > 0
    ensures ItemCount(items) <= 0 ==> avg.num == 0
    ensures ItemCount(items) > 0 ==> avg.num * ItemCount(items) == Total(items) * avg.den
  {
    Average(Total(items), ItemCount(items))
  }

  /**
   * `prev.map((item, i) => i === index ? { ...item, quantity: Math.max(0, q) } : item)`:
   * same length; at `index` only the quantity changes, to `q` or 0 if `q` is
   * negative; every other line is untouched.
   */
  function WithQuantity(items: seq<CartItem>, index: int, q: int): (r: seq<CartItem>)
    ensures |r| == |items|
    ensures forall k :: 0 <= k < |r| && k != index ==> r[k] == items[k]
    ensures 0 <= index < |items| ==>
              r[index].name == items[index].name && r[index].price == items[index].price &&
              r[index].quantity == Max(0, q)
  {
    seq(|items|, k requires 0 <= k < |items| =>
      if k == index then items[k].(quantity := Max(0, q)) else items[k])
  }

  /** The count of a joined list is the sum of the counts. */
  lemma {:induction false} ItemCountConcat(a: seq<CartItem>, b: seq<CartItem>)
    ensures ItemCount(a + b) == ItemCount(a) + ItemCount(b)
  {
    if a != [] {
      assert (a + b)[1..] == a[1..] + b;
      ItemCountConcat(a[1..], b);
    } else {
      assert a + b == b;
    }
  }

  /** Setting one line's quantity changes the count by the difference, and by nothing else. */
  lemma {:induction false} ItemCountAfterUpdate(items: seq<CartItem>, index: int, q: int)
    requires 0 <= index < |items|
    ensures ItemCount(WithQuantity(items, index, q)) ==
            ItemCount(items) - items[index].quantity + Max(0, q)
  {
    var r := WithQuantity(items, index, q);
    if index == 0 {
      assert r[1..] == items[1..];
    } else {
      ItemCountAfterUpdate(items[1..], index - 1, q);
      assert r[1..] == WithQuantity(items[1..], index - 1, q);
    }
  }

  /** Removing a line lowers the count by exactly that line's quantity. */
  lemma {:induction false} ItemCountAfterRemove(items: seq<CartItem>, index: int)
    requires 0 <= index < |items|
    ensures ItemCount(RemoveAt(items, index)) == ItemCount(items) - items[index].quantity
  {
    if index == 0 {
      assert RemoveAt(items, index) == items[1..];
    } else {
      var rest := RemoveAt(items[1..], index - 1);
      assert RemoveAt(items, index) == [items[0]] + rest;
      assert ([items[0]] + rest)[1..] == rest;
      ItemCountAfterRemove(items[1..], index - 1);
    }
  }

  /** Without negative quantities, the count is 0 exactly when every quantity is 0. */
  lemma {:induction false} ItemCountZero(items: seq<CartItem>)
    requires QuantitiesNonNegative(items)
    ensures ItemCount(items) == 0 <==> forall k :: 0 <= k < |items| ==> items[k].quantity == 0
  {
    if items != [] {
      ItemCountZero(items[1..]);
      assert forall k :: 1 <= k < |items| ==> items[k] == items[1..][k - 1];
    }
  }

  /** The cart section's state: the list of lines, edited by the "+", "-" and "Remove" buttons. */
  class CartPage {
    var cartItems: seq<CartItem>

    /** No quantity is ever negative. */
    ghost predicate Valid()
      reads this
    {
      QuantitiesNonNegative(cartItems)
    }

    /** The three sample lines on mount. */
    constructor ()
      ensures Valid()
      ensures cartItems == [CartItem("Laptop", 99999, 1), CartItem("Mouse", 2999, 2),
                            CartItem("Keyboard", 7999, 1)]
    {
      cartItems := [CartItem("Laptop", 99999, 1), CartItem("Mouse", 2999, 2),
                    CartItem("Keyboard", 7999, 1)];
    }

    /** `updateQuantity`: the line at `index` gets quantity `max(0, q)`; an unknown index changes nothing. */
    method UpdateQuantity(index: int, q: int)
      requires Valid()
      modifies this
      ensures Valid()
      ensures cartItems == WithQuantity(old(cartItems), index, q)
      ensures !(0 <= index < |old(cartItems)|) ==> cartItems == old(cartItems)
    {
      cartItems := WithQuantity(cartItems, index, q);
      assert !(0 <= index < |old(cartItems)|) ==> cartItems == old(cartItems);
    }

    /** `removeItem`: exactly the line at `index` goes, the others keep their order. */
    method RemoveItem(index: int)
      requires Valid()
      modifies this
      ensures Valid()
      ensures cartItems == RemoveAt(old(cartItems), index)
    {
      RemoveAtSubset(cartItems, index);
      cartItems := RemoveAt(cartItems, index);
    }

    /**
     * The "-" button of line `index`: the quantity drops by one but not below 0;
     * a line at 0 stays in the cart with quantity 0.
     */
    method DecreaseQuantity(index: int)
      requires Valid()
      requires 0 <= index < |cartItems|
      modifies this
      ensures Valid()
      ensures cartItems == WithQuantity(old(cartItems), index, old(cartItems)[index].quantity - 1)
      ensures |cartItems| == |old(cartItems)|
      ensures cartItems[index].quantity == Max(0, old(cartItems)[index].quantity - 1)
      ensures old(cartItems)[index].quantity == 0 ==> cartItems == old(cartItems)
    {
      UpdateQuantity(index, cartItems[index].quantity - 1);
      assert old(cartItems)[index].quantity == 0 ==> cartItems == old(cartItems);
    }

    /** The "+" button of line `index`: the quantity grows by one. */
    method IncreaseQuantity(index: int)
      requires Valid()
      requires 0 <= index < |cartItems|
      modifies this
      ensures Valid()
      ensures cartItems == WithQuantity(old(cartItems), index, old(cartItems)[index].quantity + 1)
      ensures cartItems[index].quantity == old(cartItems)[index].quantity + 1
    {
      UpdateQuantity(index, cartItems[index].quantity + 1);
    }
  }
}
