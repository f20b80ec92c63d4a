/** Sizes of finite sets. */
module Sets {

  lemma {:induction false} SameSize<T(!new)>(a: set<T>, b: set<T>, f: T -> T, g: T -> T)
    requires forall x | x in a :: f(x) in b && g(f(x)) == x
    requires forall y | y in b :: g(y) in a && f(g(y)) == y
    ensures |a| == |b|
    decreases |a|
  {
    if a == {} {
      assert forall y | y in b :: g(y) in a;
    } else {
      var x :| x in a;
      SameSize(a - {x}, b - {f(x)}, f, g);
    }
  }

  lemma Witness<T>(s: set<T>) returns (x: T)
    requires |s| > 0
    ensures x in s
  {
    x :| x in s;
  }

  /** The positions of the trues. */
  ghost function Trues(b: seq<bool>): set<int> {
    set i | 0 <= i < |b| && b[i]
  }

  /** The later positions, each one further on. */
  lemma TruesShift(b: seq<bool>)
    requires b != []
    ensures |Trues(b) - {0}| == |Trues(b[1..])|
  {
    var later, shifted := Trues(b[1..]), Trues(b) - {0};
    var f, g := (i: int) => i + 1, (i: int) => i - 1;
    forall x | x in later ensures f(x) in shifted && g(f(x)) == x {
      assert b[1..][x] == b[x + 1];
    }
    forall y | y in shifted ensures g(y) in later && f(g(y)) == y {
      assert b[1..][y - 1] == b[y];
    }
    SameSize(later, shifted, f, g);
  }

  lemma TruesHead(b: seq<bool>)
    requires b != []
    ensures |Trues(b)| == |Trues(b[1..])| + if b[0] then 1 else 0
  {
    TruesShift(b);
    if b[0] {
      assert Trues(b) == Trues(b) - {0} + {0};
    } else {
      assert Trues(b) == Trues(b) - {0};
    }
  }
}
