/**
 KSCrashMonitor_Zombie: the class names of deallocated objects in a direct-mapped cache, where an object
 takes the place of any other with the same hash; and the last exception that was deallocated.
 */
module ZombieCache {
  import opened Basics

  type Address = nat

  const CACHE_SIZE := 0x8000

  /** The address without its lowest seven bits, cut to the size of the cache. */
  function HashIndex(address: Address): (i: nat)
    ensures i < CACHE_SIZE
  {
    address / 128 % CACHE_SIZE
  }

  /**
   A deallocation: the object and the name of its class, and whether NSException is among its classes; then
   its name and reason, as far as they can be read.
   */
  datatype Dealloc = Dealloc(address: Address, className: string, isException: bool, name: Option<string>, reason: Option<string>)

  datatype Zombie = Zombie(address: Address, className: string)

  datatype Exception = Exception(address: Address, name: string, reason: string)

  /** Two objects share a place exactly if the 128-byte blocks they begin in are a multiple of 32768 blocks apart. */
  lemma SamePlaceExactly(a: Address, b: Address)
    ensures HashIndex(a) == HashIndex(b) <==> (a / 128 - b / 128) % 32768 == 0
  {
    SameRemainder(a / 128, b / 128);
  }

  lemma SameRemainder(x: nat, y: nat)
    ensures x % 32768 == y % 32768 <==> (x - y) % 32768 == 0
  {
  }

  /** So in a span of four megabytes, exactly the objects that begin in one block do. */
  lemma SamePlaceInSpan(a: Address, b: Address)
    requires a / 0x40_0000 == b / 0x40_0000
    ensures HashIndex(a) == HashIndex(b) <==> a / 128 == b / 128
  {
    BlockOf(a);
    BlockOf(b);
    hide HashIndex;
    SamePlaceExactly(a, b);
  }

  lemma BlockOf(a: Address)
    ensures a / 0x40_0000 * 32768 <= a / 128 < a / 0x40_0000 * 32768 + 32768
  {
  }

  // ------------------------------------------------------------------------------------ what a history says

  /** The last deallocation that hashes to a place. */
  function LastAt(history: seq<Dealloc>, i: nat): Option<Dealloc> {
    if history == [] then None
    else
      var last := history[|history| - 1];
      if HashIndex(last.address) == i then Some(last) else LastAt(history[..|history| - 1], i)
  }

  /** What a lookup returns; 0 is no object. */
  function ClassNameOf(history: seq<Dealloc>, address: Address): Option<string> {
    match LastAt(history, HashIndex(address))
    case None => None
    case Some(d) => if address != 0 && d.address == address then Some(d.className) else None
  }

  function LastException(history: seq<Dealloc>): Exception {
    if history == [] then Exception(0, "", "")
    else
      var e, last := LastException(history[..|history| - 1]), history[|history| - 1];
      if last.isException
      then Exception(last.address, if last.name.Some? then last.name.value else e.name,
                     if last.reason.Some? then last.reason.value else e.reason)
      else e
  }

  /** Nothing after the `k`th deallocation hashes to its place. */
  ghost predicate Undisturbed(history: seq<Dealloc>, k: nat) {
    k < |history| && forall j | k < j < |history| :: HashIndex(history[j].address) != HashIndex(history[k].address)
  }

  lemma {:induction false} LastAtIs(history: seq<Dealloc>, k: nat)
    requires Undisturbed(history, k)
    ensures LastAt(history, HashIndex(history[k].address)) == Some(history[k])
    decreases |history|
  {
    if k < |history| - 1 {
      LastAtIs(history[..|history| - 1], k);
    }
  }

  lemma {:induction false} LastAtFound(history: seq<Dealloc>, i: nat) returns (k: nat)
    requires LastAt(history, i).Some?
    ensures k < |history| && HashIndex(history[k].address) == i && LastAt(history, i) == Some(history[k])
    ensures forall j | k < j < |history| :: HashIndex(history[j].address) != i
    decreases |history|
  {
    if HashIndex(history[|history| - 1].address) == i {
      k := |history| - 1;
    } else {
      k := LastAtFound(history[..|history| - 1], i);
    }
  }

  /**
   A deallocated object is found, with the class it had, exactly as long as no later deallocation hashes to its
   place; and an object that was not deallocated is never found.
   */
  lemma FoundExactly(history: seq<Dealloc>, address: Address, className: string)
    ensures ClassNameOf(history, address) == Some(className)
      <==> address != 0
           && exists k: nat :: Undisturbed(history, k) && history[k].address == address && history[k].className == className
  {
    if LastAt(history, HashIndex(address)).Some? {
      var k := LastAtFound(history, HashIndex(address));
      assert Undisturbed(history, k);
    }
    forall k: nat | Undisturbed(history, k) && history[k].address == address
      ensures LastAt(history, HashIndex(address)) == Some(history[k])
    {
      LastAtIs(history, k);
    }
  }

  /** Objects in the same 128 bytes share a place, and the newer hides the older. */
  lemma NeighboursHide(a: Dealloc, b: Dealloc)
    requires a.address != b.address && a.address / 128 == b.address / 128
    ensures ClassNameOf([a, b], a.address) == None
  {
    assert LastAt([a, b], HashIndex(a.address)) == Some(b);
  }

  /** The last exception: its address is the newest one's; name and reason may be left from older ones. */
  lemma {:induction false} LastExceptionIs(history: seq<Dealloc>, k: nat)
    requires k < |history| && history[k].isException && forall j | k < j < |history| :: !history[j].isException
    ensures var e, older := LastException(history), LastException(history[..k]);
      && e.address == history[k].address
      && e.name == (if history[k].name.Some? then history[k].name.value else older.name)
      && e.reason == (if history[k].reason.Some? then history[k].reason.value else older.reason)
    decreases |history|
  {
    if k < |history| - 1 {
      var shorter := history[..|history| - 1];
      LastExceptionIs(shorter, k);
      assert shorter[..k] == history[..k];
    }
  }

  // -------------------------------------------------------------------------------------------- the globals

  class ZombieMonitor {
    var isEnabled: bool
    var cache: array?<Zombie>
    var lastException: Exception
    ghost var history: seq<Dealloc>

    /** The cache holds the last deallocation at each place; an empty place holds the object 0. */
    ghost predicate Valid()
      reads this, cache
    {
      && (cache != null ==> isEnabled && cache.Length == CACHE_SIZE && lastException == LastException(history))
      && (cache != null ==> forall i | 0 <= i < CACHE_SIZE ::
            match LastAt(history, i)
            case None => cache[i].address == 0
            case Some(d) => cache[i] == Zombie(d.address, d.className))
    }

    constructor ()
      ensures Valid() && !isEnabled && cache == null
    {
      isEnabled, cache, lastException, history := false, null, Exception(0, "", ""), [];
    }

    /** Installs once, if there is memory; the switch cannot be turned off. */
    method SetEnabled(enable: bool, memory: bool)
      requires Valid()
      modifies this
      ensures Valid() && isEnabled == (old(isEnabled) || enable)
      ensures cache == old(cache) || (fresh(cache) && !old(isEnabled) && memory && history == [])
      ensures enable && memory && !old(isEnabled) ==> cache != null
    {
      if enable != isEnabled {
        isEnabled := enable;
        if enable {
          if memory {
            cache := new Zombie[CACHE_SIZE](_ => Zombie(0, ""));
            lastException := Exception(0, "", "");
            history := [];
          } else {
            cache := null;
          }
        } else {
          isEnabled := true;
        }
      }
    }

    /** `handleDealloc` */
    method HandleDealloc(d: Dealloc)
      requires Valid()
      modifies this`lastException, this`history, cache
      ensures Valid() && history == old(history) + if cache != null then [d] else []
    {
      if cache != null {
        cache[HashIndex(d.address)] := Zombie(d.address, d.className);
        if d.isException {
          lastException := lastException.(address := d.address);
          if d.name.Some? {
            lastException := lastException.(name := d.name.value);
          }
          if d.reason.Some? {
            lastException := lastException.(reason := d.reason.value);
          }
        }
        history := history + [d];
        assert history[..|history| - 1] == old(history);
      } else {
        assert history + [] == history;
      }
    }

    /** `kszombie_className` */
    method ClassName(address: Address) returns (name: Option<string>)
      requires Valid()
      ensures name == if cache == null then None else ClassNameOf(history, address)
    {
      if cache == null || address == 0 {
        return None;
      }
      var zombie := cache[HashIndex(address)];
      return if zombie.address == address then Some(zombie.className) else None;
    }
  }
}
