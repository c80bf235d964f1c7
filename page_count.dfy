/** Number of pages needed for a number of items: integer ceiling division,
    with the guard each port puts in front of it. */
module PageCount {

  /** Exact ceiling of the rational quotient a / b, for either sign of b
      (the source computes `ceil(a / b)` in floating point). */
  function CeilDiv(a: int, b: int): (c: int)
    requires b != 0
    ensures b > 0 ==> (c - 1) * b < a <= c * b
    ensures b < 0 ==> c * b <= a < (c - 1) * b
  {
    if b > 0 then
      var q := (-a) / b;
      assert -a == q * b + (-a) % b;
      assert (-q) * b == -(q * b);
      assert (-q - 1) * b == -(q * b) - b;
      -q
    else
      var q := a / (-b);
      assert a == q * (-b) + a % (-b);
      assert (-q) * b == q * (-b);
      assert (-q - 1) * b == q * (-b) + (-b);
      -q
  }

  /** The JavaScript port: no pages when either input is not positive,
      otherwise the least number of pages of `itemsPerPage` items that hold
      `totalItems` items. */
  function NumPagesGuarded(totalItems: int, itemsPerPage: int): (n: int)
    ensures itemsPerPage <= 0 || totalItems <= 0 ==> n == 0
    ensures itemsPerPage > 0 && totalItems > 0 ==>
      n >= 1 && (n - 1) * itemsPerPage < totalItems <= n * itemsPerPage
  {
    if itemsPerPage <= 0 || totalItems <= 0 then 0
    else
      CeilDiv(totalItems, itemsPerPage)
  }

  /** The PHP and Python ports: no pages only when `itemsPerPage` is zero;
      otherwise the exact ceiling of the quotient, whatever the signs. */
  function NumPagesCeil(totalItems: int, itemsPerPage: int): (n: int)
    ensures itemsPerPage == 0 ==> n == 0
    ensures itemsPerPage > 0 ==> (n - 1) * itemsPerPage < totalItems <= n * itemsPerPage
    ensures itemsPerPage < 0 ==> n * itemsPerPage <= totalItems < (n - 1) * itemsPerPage
  {
    if itemsPerPage == 0 then 0 else CeilDiv(totalItems, itemsPerPage)
  }

  /** The bracketing that `NumPagesGuarded` promises determines the page count:
      any page count that brackets the items the same way is the same number. */
  lemma PageCountUnique(totalItems: int, itemsPerPage: int, n: int)
    requires itemsPerPage > 0 && totalItems > 0
    requires (n - 1) * itemsPerPage < totalItems <= n * itemsPerPage
    ensures n == NumPagesGuarded(totalItems, itemsPerPage)
  {
    var c := NumPagesGuarded(totalItems, itemsPerPage);
    if n < c {
      MulMonotone(n, c - 1, itemsPerPage);
    } else if c < n {
      MulMonotone(c, n - 1, itemsPerPage);
    }
  }

  lemma MulMonotone(x: int, y: int, k: int)
    requires x <= y && k > 0
    ensures x * k <= y * k
  {
    assert y * k - x * k == (y - x) * k;
  }

  /** On the inputs the ports are meant for (no negative totals or sizes) the
      two guards agree. */
  lemma GuardsAgreeOnNaturals(totalItems: int, itemsPerPage: int)
    requires totalItems >= 0 && itemsPerPage >= 0
    ensures NumPagesCeil(totalItems, itemsPerPage) == NumPagesGuarded(totalItems, itemsPerPage)
  {
    if itemsPerPage > 0 && totalItems == 0 {
      var n := NumPagesCeil(totalItems, itemsPerPage);
      if n >= 1 {
        MulMonotone(0, n - 1, itemsPerPage);
      } else if n < 0 {
        MulMonotone(n, -1, itemsPerPage);
      }
    }
  }

  /** Without the JavaScript guard, negative inputs reach the ceiling: a
      negative total or a negative page size alone gives no positive page
      count, and both negative give a positive one. */
  lemma CeilSigns(totalItems: int, itemsPerPage: int)
    ensures (totalItems <= 0 && itemsPerPage > 0) || (totalItems >= 0 && itemsPerPage < 0) ==>
      NumPagesCeil(totalItems, itemsPerPage) <= 0
    ensures totalItems < 0 && itemsPerPage < 0 ==> NumPagesCeil(totalItems, itemsPerPage) >= 1
  {
    var n := NumPagesCeil(totalItems, itemsPerPage);
    if totalItems <= 0 && itemsPerPage > 0 && n > 0 {
      MulMonotone(0, n - 1, itemsPerPage);
    }
    if totalItems >= 0 && itemsPerPage < 0 && n > 0 {
      MulMonotone(0, n - 1, -itemsPerPage);
    }
    if totalItems < 0 && itemsPerPage < 0 && n <= 0 {
      MulMonotone(0, -n, -itemsPerPage);
    }
  }

  /** Worked values: 100 items of 10 per page fill 10 pages, 101 need 11; the
      ports part ways on two negative inputs. */
  lemma PageCountExamples()
    ensures NumPagesGuarded(100, 10) == 10 && NumPagesGuarded(101, 10) == 11
    ensures NumPagesGuarded(-5, -2) == 0 && NumPagesCeil(-5, -2) == 3
    ensures NumPagesCeil(7, -2) == -3 && NumPagesCeil(0, 10) == 0
  {
    PageCountUnique(100, 10, 10);
    PageCountUnique(101, 10, 11);
  }
}
