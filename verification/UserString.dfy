/**
 `check_null_terminated` (api/src/ptr.rs): the scan for the end of a user string that checks access
 once per page, against a scan that checks before every element.
 */
module UserString {

  const PAGE_SIZE_4K := 4096

  /**
   User memory while the scan runs: which pages may be read, and which addresses hold a zero element.
   No page at or above `limit` may be read.
   */
  datatype Memory = Memory(accessible: nat -> bool, isZero: nat -> bool, limit: nat)

  ghost predicate Bounded(m: Memory) {
    forall page :: page >= m.limit ==> !m.accessible(page)
  }

  /** Element sizes equal to their alignment, a power of two no larger than a page. */
  predicate ElementSize(size: nat) {
    size > 0 && PAGE_SIZE_4K % size == 0
  }

  datatype Result = Ok(len: nat) | EFAULT

  function PageOf(addr: nat): nat {
    addr / PAGE_SIZE_4K
  }

  /** The scan that checks the page of every element before reading it. */
  function Scan(m: Memory, addr: nat, size: nat): (r: Result)
    requires ElementSize(size) && Bounded(m)
    decreases if PageOf(addr) < m.limit then m.limit * PAGE_SIZE_4K - addr else 0
  {
    if !m.accessible(PageOf(addr)) then EFAULT
    else if m.isZero(addr) then Ok(0)
    else
      match Scan(m, addr + size, size)
      case Ok(n) => Ok(n + 1)
      case EFAULT => EFAULT
  }

  /** What the kernel does to user memory: an access check of a page, or a read of one element. */
  datatype Event = Check(page: nat, passed: bool) | Read(addr: nat)

  /**
   Every read is of an element that lies inside a page checked before and found accessible, and no
   page is checked twice.
   */
  predicate Disciplined(log: seq<Event>, size: nat) {
    log == [] ||
    var before := log[..|log| - 1];
    && Disciplined(before, size)
    && match log[|log| - 1]
       case Read(a) => Check(PageOf(a), true) in before && (size > 0 ==> PageOf(a + size - 1) == PageOf(a))
       case Check(p, _) => Check(p, true) !in before && Check(p, false) !in before
  }

  lemma MulDistributes(q: nat, m: nat, r: nat, size: nat)
    ensures (q * m + r) * size == q * (m * size) + r * size
  {
  }

  lemma MulBelow(r: nat, m: nat, size: nat)
    requires r < m
    ensures r * size + size <= m * size
  {
    assert (r + 1) * size <= m * size;
  }

  /** An aligned element does not cross a page boundary. */
  lemma ElementInOnePage(index: nat, size: nat)
    requires ElementSize(size)
    ensures PageOf(index * size + size - 1) == PageOf(index * size)
  {
    var per := PAGE_SIZE_4K / size;
    assert per * size == PAGE_SIZE_4K;
    var q, r := index / per, index % per;
    assert index == q * per + r;
    MulDistributes(q, per, r, size);
    MulBelow(r, per, size);
    WithinPage(q, r * size, size);
  }

  lemma WithinPage(q: nat, low: nat, size: nat)
    requires size > 0 && low + size <= PAGE_SIZE_4K
    ensures PageOf(q * PAGE_SIZE_4K + low) == q == PageOf(q * PAGE_SIZE_4K + low + size - 1)
  {
  }

  lemma LogStep(log: seq<Event>, size: nat, e: Event)
    requires Disciplined(log, size)
    requires match e
             case Read(a) => Check(PageOf(a), true) in log && (size > 0 ==> PageOf(a + size - 1) == PageOf(a))
             case Check(p, _) => Check(p, true) !in log && Check(p, false) !in log
    ensures Disciplined(log + [e], size)
  {
    assert (log + [e])[..|log|] == log;
  }

  /** The events so far are disciplined, and exactly the pages `first..page` were checked, all accessible. */
  ghost predicate Progress(m: Memory, log: seq<Event>, size: nat, first: nat, page: nat) {
    && Disciplined(log, size)
    && (forall p: nat :: first <= p < page ==> Check(p, true) in log && m.accessible(p))
    && (forall e :: e in log && e.Check? ==> first <= e.page < page)
  }

  lemma ProgressCheck(m: Memory, log: seq<Event>, size: nat, first: nat, page: nat)
    requires Progress(m, log, size, first, page) && first <= page
    ensures Disciplined(log + [Check(page, m.accessible(page))], size)
    ensures m.accessible(page) ==> Progress(m, log + [Check(page, true)], size, first, page + 1)
  {
    LogStep(log, size, Check(page, m.accessible(page)));
  }

  lemma ProgressRead(m: Memory, log: seq<Event>, size: nat, first: nat, page: nat, addr: nat)
    requires Progress(m, log, size, first, page) && first <= PageOf(addr) < page
    requires size > 0 && PageOf(addr + size - 1) == PageOf(addr)
    ensures Progress(m, log + [Read(addr)], size, first, page)
  {
    LogStep(log, size, Read(addr));
  }

  /** The scan from `ptr`, the address of element `len`, decides the scan from the start. */
  ghost predicate Resumes(m: Memory, start: nat, size: nat, len: nat, ptr: nat)
    requires ElementSize(size) && Bounded(m)
  {
    match Scan(m, ptr, size)
    case Ok(n) => Scan(m, start, size) == Ok(len + n)
    case EFAULT => Scan(m, start, size) == EFAULT
  }

  lemma ResumeNext(m: Memory, start: nat, size: nat, len: nat, ptr: nat)
    requires ElementSize(size) && Bounded(m) && Resumes(m, start, size, len, ptr)
    requires m.accessible(PageOf(ptr)) && !m.isZero(ptr)
    ensures Resumes(m, start, size, len + 1, ptr + size) && ptr < m.limit * PAGE_SIZE_4K
  {
  }

  lemma NextPage(addr: nat, size: nat)
    requires ElementSize(size)
    ensures PageOf(addr) <= PageOf(addr + size) <= PageOf(addr) + 1
  {
  }

  /** The inner loop: check pages, the next one having number `next`, until that of `ptr` is checked. */
  method CheckPages(m: Memory, ptr: nat, next: nat, log: seq<Event>, ghost size: nat, ghost first: nat)
    returns (passed: bool, next': nat, log': seq<Event>)
    requires first <= PageOf(ptr) <= next && Progress(m, log, size, first, next)
    ensures passed <==> PageOf(ptr) < next || m.accessible(PageOf(ptr))
    ensures Disciplined(log', size)
    ensures passed ==> PageOf(ptr) < next' && Progress(m, log', size, first, next')
  {
    next', log', passed := next, log, true;
    while ptr >= next' * PAGE_SIZE_4K
      invariant next' == next || (next' == next + 1 && m.accessible(next) && next == PageOf(ptr))
      invariant Progress(m, log', size, first, next')
      decreases next + 1 - next'
    {
      assert next' == PageOf(ptr);
      ProgressCheck(m, log', size, first, next');
      passed := m.accessible(next');
      log' := log' + [Check(next', passed)];
      if !passed {
        return;
      }
      next' := next' + 1;
    }
    passed := true;
  }

  /** The scan so far: standing at element `len`, with every page before number `next` checked. */
  ghost predicate Standing(m: Memory, start: nat, size: nat, len: nat, ptr: nat, next: nat, log: seq<Event>)
    requires ElementSize(size) && Bounded(m)
  {
    && PageOf(start) <= PageOf(ptr) <= next && Aligned(ptr, size)
    && Progress(m, log, size, PageOf(start), next)
    && Resumes(m, start, size, len, ptr)
  }

  /** One round of the outer loop: check what has to be checked, read one element. */
  method ScanElement(m: Memory, ghost start: nat, size: nat, len: nat, ptr: nat, next: nat, log: seq<Event>)
    returns (r: Result, more: bool, next': nat, log': seq<Event>)
    requires ElementSize(size) && Bounded(m) && Standing(m, start, size, len, ptr, next, log)
    ensures Disciplined(log', size)
    ensures !more ==> r == Scan(m, start, size)
    ensures more ==> ptr < m.limit * PAGE_SIZE_4K && Standing(m, start, size, len + 1, ptr + size, next', log')
  {
    more := false;
    var passed;
    passed, next', log' := CheckPages(m, ptr, next, log, size, PageOf(start));
    if !passed {
      return EFAULT, false, next', log';
    }
    AlignedStep(ptr, size);
    ProgressRead(m, log', size, PageOf(start), next', ptr);
    log' := log' + [Read(ptr)];
    if m.isZero(ptr) {
      return Ok(len), false, next', log';
    }
    ResumeNext(m, start, size, len, ptr);
    NextPage(ptr, size);
    r, more := EFAULT, true;
  }

  /**
   `check_null_terminated`: it returns what the per-element scan returns, reads only inside pages it
   has checked, and checks each page at most once.
   */
  method CheckNullTerminated(m: Memory, start: nat, size: nat) returns (r: Result, log: seq<Event>)
    requires ElementSize(size) && Bounded(m)
    ensures r == if start % size != 0 then EFAULT else Scan(m, start, size)
    ensures Disciplined(log, size)
  {
    r, log := EFAULT, [];
    if start % size != 0 {
      return;
    }
    AlignedStart(start, size);
    var next, ptr, len, more := PageOf(start), start, 0, true;
    while more
      invariant more ==> Standing(m, start, size, len, ptr, next, log)
      invariant !more ==> r == Scan(m, start, size) && Disciplined(log, size)
      decreases more, m.limit * PAGE_SIZE_4K - ptr
    {
      r, more, next, log := ScanElement(m, start, size, len, ptr, next, log);
      if more {
        ptr, len := ptr + size, len + 1;
      }
    }
  }

  ghost predicate Aligned(addr: nat, size: nat) {
    exists index: nat :: addr == index * size
  }

  lemma AlignedStart(addr: nat, size: nat)
    requires size > 0 && addr % size == 0
    ensures Aligned(addr, size)
  {
    assert addr == (addr / size) * size;
  }

  /** An aligned element lies in one page, and the next element is aligned too. */
  lemma AlignedStep(addr: nat, size: nat)
    requires ElementSize(size) && Aligned(addr, size)
    ensures PageOf(addr + size - 1) == PageOf(addr) && Aligned(addr + size, size)
  {
    var index: nat :| addr == index * size;
    ElementInOnePage(index, size);
    NextElement(index, size);
  }

  lemma NextElement(index: nat, size: nat)
    ensures (index + 1) * size == index * size + size
  {
  }

  function Element(start: nat, size: nat, i: nat): nat {
    start + i * size
  }

  /** The first `n` elements are readable and none of them is zero. */
  ghost predicate Plain(m: Memory, start: nat, size: nat, n: nat) {
    forall i: nat :: i < n ==> m.accessible(PageOf(Element(start, size, i))) && !m.isZero(Element(start, size, i))
  }

  lemma ElementShift(start: nat, size: nat, i: nat)
    ensures Element(start + size, size, i) == Element(start, size, i + 1)
  {
  }

  lemma PlainShift(m: Memory, start: nat, size: nat, n: nat)
    requires n > 0
    ensures Plain(m, start, size, n) <==>
              m.accessible(PageOf(start)) && !m.isZero(start) && Plain(m, start + size, size, n - 1)
  {
    assert Element(start, size, 0) == start;
    var next := start + size;
    forall i: nat
      ensures Element(next, size, i) == Element(start, size, i + 1)
    {
      ElementShift(start, size, i);
    }
    if m.accessible(PageOf(start)) && !m.isZero(start) && Plain(m, start + size, size, n - 1) {
      forall i: nat | i < n
        ensures m.accessible(PageOf(Element(start, size, i))) && !m.isZero(Element(start, size, i))
      {
        if i > 0 {
          assert Element(next, size, i - 1) == Element(start, size, i);
        }
      }
    }
  }

  /** The scan returns n exactly when element n is the first zero and all elements up to it are readable. */
  lemma {:induction false} ScanFindsFirstZero(m: Memory, start: nat, size: nat, n: nat)
    requires ElementSize(size) && Bounded(m)
    ensures Scan(m, start, size) == Ok(n) <==>
              && Plain(m, start, size, n)
              && m.accessible(PageOf(Element(start, size, n))) && m.isZero(Element(start, size, n))
    decreases n
  {
    if n == 0 {
      assert Element(start, size, 0) == start;
    } else {
      PlainShift(m, start, size, n);
      ScanFindsFirstZero(m, start + size, size, n - 1);
      ElementShift(start, size, n - 1);
    }
  }

  /** The scan faults exactly when an unreadable element comes before any zero one. */
  lemma ScanFaultsExactly(m: Memory, start: nat, size: nat)
    requires ElementSize(size) && Bounded(m)
    ensures Scan(m, start, size) == EFAULT <==>
              exists n :: Plain(m, start, size, n) && !m.accessible(PageOf(Element(start, size, n)))
  {
    if Scan(m, start, size) == EFAULT {
      var n := FaultingElement(m, start, size);
    } else {
      var k := Scan(m, start, size).len;
      ScanFindsFirstZero(m, start, size, k);
      assert forall n: nat :: n <= k ==> m.accessible(PageOf(Element(start, size, n)));
      assert forall n: nat :: n > k ==> !Plain(m, start, size, n);
    }
  }

  lemma {:induction false} FaultingElement(m: Memory, start: nat, size: nat) returns (n: nat)
    requires ElementSize(size) && Bounded(m) && Scan(m, start, size) == EFAULT
    ensures Plain(m, start, size, n) && !m.accessible(PageOf(Element(start, size, n)))
    decreases if PageOf(start) < m.limit then m.limit * PAGE_SIZE_4K - start else 0
  {
    if !m.accessible(PageOf(start)) {
      n := 0;
      assert Element(start, size, 0) == start;
    } else {
      var k := FaultingElement(m, start + size, size);
      n := k + 1;
      PlainShift(m, start, size, n);
      ElementShift(start, size, k);
    }
  }
}
