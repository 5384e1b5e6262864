/**
 * The money and house game of NielsSimon.Console/Program.cs: a player
 * starts with 100 money, each house costs 10, and the game loop reads one
 * command per line.  The classes keep the program's shape; the value-level
 * view GameView with Apply and Run states what a command, and a sequence
 * of commands, does to the counters.
 */
module HouseGame {
  import opened Wrappers

  const HOUSE_PRICE: int := 10
  const STARTING_MONEY: int := 100
  /** How many houses the starting money pays for. */
  const MAX_HOUSES: nat := 10

  const INT_MIN: int := -0x8000_0000
  const INT_MAX: int := 0x7FFF_FFFF
  /** The number of values of a 32-bit int. */
  const WORD: int := 0x1_0000_0000

  predicate IsInt32(x: int) {
    INT_MIN <= x <= INT_MAX
  }

  /** `x++` on a C# int in an unchecked context: it wraps from the largest value to the smallest. */
  function Increment(x: int): (r: int)
    requires IsInt32(x)
    ensures IsInt32(r) && (r - (x + 1)) % WORD == 0
  {
    if x == INT_MAX then INT_MIN else x + 1
  }

  // ---------------------------------------------------------------------
  // Commands

  datatype Command = NextDay | ShowMoney | BuyHouse | Unknown

  /** string.ToLower() on the ASCII letters. */
  function LowerChar(c: char): (r: char)
    ensures 'A' <= c <= 'Z' ==> 'a' <= r <= 'z'
    ensures !('A' <= c <= 'Z') ==> r == c
  {
    if 'A' <= c <= 'Z' then (c as int - 'A' as int + 'a' as int) as char else c
  }

  function Lower(s: string): (r: string)
    ensures |r| == |s|
    ensures forall i :: 0 <= i < |s| ==> r[i] == LowerChar(s[i])
  {
    if s == [] then [] else [LowerChar(s[0])] + Lower(s[1..])
  }

  lemma LowerIdempotent(s: string)
    ensures Lower(Lower(s)) == Lower(s)
  {
    var t := Lower(s);
    assert forall i :: 0 <= i < |s| ==> LowerChar(t[i]) == t[i];
  }

  /** The switch of Game.Start on `input?.ToLower()`; a null line falls to the default branch. */
  function Parse(input: Option<string>): (c: Command)
    ensures c == NextDay <==> input.Some? && Lower(input.value) == "nextday"
    ensures c == ShowMoney <==> input.Some? && Lower(input.value) == "money"
    ensures c == BuyHouse <==> input.Some? && Lower(input.value) == "buyhouse"
  {
    if input.None? then Unknown
    else
      var key := Lower(input.value);
      if key == "nextday" then NextDay
      else if key == "money" then ShowMoney
      else if key == "buyhouse" then BuyHouse
      else Unknown
  }

  /** Commands are matched without regard to case. */
  lemma ParseIgnoresCase(s: string)
    ensures Parse(Some(Lower(s))) == Parse(Some(s))
  {
    LowerIdempotent(s);
  }

  lemma LowerOfLowercase(s: string)
    requires forall i :: 0 <= i < |s| ==> !('A' <= s[i] <= 'Z')
    ensures Lower(s) == s
  {
  }

  /** The lower-case spellings of the commands, and the null line. */
  lemma ParseKeywords()
    ensures Parse(Some("nextday")) == NextDay
    ensures Parse(Some("money")) == ShowMoney
    ensures Parse(Some("buyhouse")) == BuyHouse
    ensures Parse(None) == Unknown
  {
    LowerOfLowercase("nextday");
    LowerOfLowercase("money");
    LowerOfLowercase("buyhouse");
  }

  // ---------------------------------------------------------------------
  // Value view of the game

  /** DayCount, Niels.Money and the number of Niels.Houses. */
  datatype GameView = GameView(day: int, money: int, houses: nat)

  const FRESH: GameView := GameView(0, STARTING_MONEY, 0)

  /** Money spent is exactly the price of the houses owned, and money never goes negative. */
  predicate Conserved(g: GameView) {
    IsInt32(g.day) && g.money >= 0 && g.money + HOUSE_PRICE * g.houses == STARTING_MONEY
  }

  /** One iteration of Game.Start's loop. */
  function Apply(g: GameView, c: Command): (r: GameView)
    requires IsInt32(g.day)
    ensures IsInt32(r.day)
    ensures r.day == (if c == NextDay then Increment(g.day) else g.day)
    ensures c == NextDay ==> r.money == g.money && r.houses == g.houses
    ensures c == BuyHouse && g.money >= HOUSE_PRICE ==> r.money == g.money - HOUSE_PRICE && r.houses == g.houses + 1
    ensures (c == BuyHouse && g.money < HOUSE_PRICE) || c == ShowMoney || c == Unknown ==> r == g
  {
    match c
    case NextDay => g.(day := Increment(g.day))
    case ShowMoney => g
    case BuyHouse => if g.money >= HOUSE_PRICE then GameView(g.day, g.money - HOUSE_PRICE, g.houses + 1) else g
    case Unknown => g
  }

  /** Every command keeps the conservation law. */
  lemma ApplyConserves(g: GameView, c: Command)
    requires Conserved(g)
    ensures Conserved(Apply(g, c))
  {
  }

  /** Game.Start's loop over a finite prefix of the input lines. */
  function Run(g: GameView, inputs: seq<Option<string>>): (r: GameView)
    requires IsInt32(g.day)
    ensures IsInt32(r.day)
    ensures g.houses <= r.houses && r.money <= g.money
    ensures r.money + HOUSE_PRICE * r.houses == g.money + HOUSE_PRICE * g.houses
    decreases |inputs|
  {
    if inputs == [] then g else Run(Apply(g, Parse(inputs[0])), inputs[1..])
  }

  lemma {:induction false} RunConserves(g: GameView, inputs: seq<Option<string>>)
    requires Conserved(g)
    ensures Conserved(Run(g, inputs))
    decreases |inputs|
  {
    if inputs != [] {
      ApplyConserves(g, Parse(inputs[0]));
      RunConserves(Apply(g, Parse(inputs[0])), inputs[1..]);
    }
  }

  /** How many of `inputs` are "nextday" in some case. */
  function NextDays(inputs: seq<Option<string>>): nat
    decreases |inputs|
  {
    if inputs == [] then 0 else (if Parse(inputs[0]) == NextDay then 1 else 0) + NextDays(inputs[1..])
  }

  /**
   * The day counter counts the "nextday" commands modulo 2^32, and
   * exactly as long as it does not overflow.
   */
  lemma {:induction false} RunDays(g: GameView, inputs: seq<Option<string>>)
    requires IsInt32(g.day)
    ensures (Run(g, inputs).day - (g.day + NextDays(inputs))) % WORD == 0
    ensures g.day + NextDays(inputs) <= INT_MAX ==> Run(g, inputs).day == g.day + NextDays(inputs)
    decreases |inputs|
  {
    if inputs != [] {
      var h := Apply(g, Parse(inputs[0]));
      var d := if Parse(inputs[0]) == NextDay then 1 else 0;
      assert Run(g, inputs) == Run(h, inputs[1..]);
      assert (h.day - (g.day + d)) % WORD == 0;
      RunDays(h, inputs[1..]);
      MultiplesAdd(Run(h, inputs[1..]).day - (h.day + NextDays(inputs[1..])), h.day - (g.day + d));
      if g.day + NextDays(inputs) <= INT_MAX {
        assert h.day == g.day + d;
      }
    }
  }

  lemma MultiplesAdd(a: int, b: int)
    requires a % WORD == 0 && b % WORD == 0
    ensures (a + b) % WORD == 0
  {
    var i, j := a / WORD, b / WORD;
    assert a == WORD * i && b == WORD * j;
    assert a + b == WORD * (i + j);
  }

  /** `k` lines of "buyhouse". */
  function Buys(k: nat): (r: seq<Option<string>>)
    ensures |r| == k && forall i :: 0 <= i < k ==> r[i] == Some("buyhouse")
  {
    if k == 0 then [] else [Some("buyhouse")] + Buys(k - 1)
  }

  function Min(a: int, b: int): int {
    if a <= b then a else b
  }

  lemma RunBuyStep(g: GameView, k: nat)
    requires IsInt32(g.day) && k > 0
    ensures Run(g, Buys(k)) == Run(Apply(g, BuyHouse), Buys(k - 1))
  {
    ParseKeywords();
    assert Buys(k)[0] == Some("buyhouse") && Buys(k)[1..] == Buys(k - 1);
  }

  /** Buying houses one after another: as many succeed as the money pays for, the rest change nothing. */
  lemma {:induction false} RunBuys(g: GameView, k: nat)
    requires Conserved(g)
    ensures g.houses <= MAX_HOUSES
    ensures var n := Min(k, MAX_HOUSES - g.houses);
      Run(g, Buys(k)) == GameView(g.day, g.money - HOUSE_PRICE * n, g.houses + n)
    decreases k
  {
    if k > 0 {
      var h := Apply(g, BuyHouse);
      RunBuyStep(g, k);
      ApplyConserves(g, BuyHouse);
      RunBuys(h, k - 1);
      if g.money >= HOUSE_PRICE {
        assert g.houses < MAX_HOUSES;
        assert Min(k, MAX_HOUSES - g.houses) == 1 + Min(k - 1, MAX_HOUSES - h.houses);
      } else {
        assert g.houses == MAX_HOUSES && h == g;
      }
    }
  }

  /** From a fresh game, exactly the first ten purchases succeed. */
  lemma FreshBuys(k: nat)
    ensures Run(FRESH, Buys(k)) == GameView(0, STARTING_MONEY - HOUSE_PRICE * Min(k, MAX_HOUSES), Min(k, MAX_HOUSES))
  {
    RunBuys(FRESH, k);
  }

  /** The eleventh purchase leaves the game as it was. */
  lemma EleventhBuyRejected()
    ensures Run(FRESH, Buys(11)) == Run(FRESH, Buys(10))
  {
    FreshBuys(11);
    FreshBuys(10);
  }

  // ---------------------------------------------------------------------
  // The classes of Program.cs

  class Decoration {
    var name: string
    var cost: int
    var extraIncome: int

    constructor (name: string, cost: int, extraIncome: int)
      ensures this.name == name && this.cost == cost && this.extraIncome == extraIncome
    {
      this.name := name;
      this.cost := cost;
      this.extraIncome := extraIncome;
    }
  }

  class Player {
    var money: int
    var houses: seq<House>

    constructor ()
      ensures money == STARTING_MONEY && houses == []
    {
      money := STARTING_MONEY;
      houses := [];
    }
  }

  class House {
    /** Price is never assigned after construction. */
    const price: int := HOUSE_PRICE
    var decorations: seq<Decoration>

    constructor ()
      ensures decorations == []
    {
      decorations := [];
    }

    /** House.Buy: pay the price and take the house, or change nothing. */
    method Buy(player: Player)
      modifies player
      ensures old(player.money) >= price ==>
        player.money == old(player.money) - price && player.houses == old(player.houses) + [this]
      ensures old(player.money) < price ==>
        player.money == old(player.money) && player.houses == old(player.houses)
    {
      if player.money >= price {
        player.money := player.money - price;
        player.houses := player.houses + [this];
      }
    }
  }

  class Game {
    var dayCount: int
    var niels: Player

    constructor ()
      ensures fresh(niels) && View() == FRESH && Valid()
    {
      dayCount := 0;
      niels := new Player();
    }

    function View(): GameView
      reads this, niels
    {
      GameView(dayCount, niels.money, |niels.houses|)
    }

    ghost predicate Valid()
      reads this, niels
    {
      Conserved(View())
    }

    /** The body of Game.Start's loop for one line read from the console (None for null). */
    method Step(input: Option<string>)
      requires Valid()
      modifies this, niels
      ensures niels == old(niels) && Valid()
      ensures View() == Apply(old(View()), Parse(input))
      ensures Parse(input) == BuyHouse && old(niels.money) >= HOUSE_PRICE ==>
        |niels.houses| == |old(niels.houses)| + 1 && niels.houses[..|old(niels.houses)|] == old(niels.houses)
        && fresh(niels.houses[|old(niels.houses)|])
      ensures !(Parse(input) == BuyHouse && old(niels.money) >= HOUSE_PRICE) ==> niels.houses == old(niels.houses)
    {
      ApplyConserves(View(), Parse(input));
      match Parse(input) {
        case NextDay =>
          dayCount := Increment(dayCount);
        case ShowMoney =>
        case BuyHouse =>
          var newHouse := new House();
          newHouse.Buy(niels);
        case Unknown =>
      }
    }

    /** Game.Start over the first |inputs| lines of its endless loop. */
    method Start(inputs: seq<Option<string>>)
      requires Valid()
      modifies this, niels
      ensures niels == old(niels) && Valid()
      ensures View() == Run(old(View()), inputs)
    {
      var i := 0;
      while i < |inputs|
        invariant 0 <= i <= |inputs|
        invariant niels == old(niels) && Valid()
        invariant Run(View(), inputs[i..]) == Run(old(View()), inputs)
      {
        assert inputs[i..][0] == inputs[i] && inputs[i..][1..] == inputs[i + 1..];
        Step(inputs[i]);
        i := i + 1;
      }
    }
  }
}
