/**
 The NVMC with its flash, in RAM and blank at start. One operation at a time takes its time, erases take effect when
 they end, and a page that is erased partially is wiped once it was under erase long enough.
 */
module Nvmc {
  import opened Common
  import opened Arithmetic

  const PAGE_SIZE: nat := 4096
  const N_PAGES: nat := 128
  const FLASH_SIZE: nat := N_PAGES * PAGE_SIZE
  const WORDS_PER_PAGE: nat := PAGE_SIZE / 4
  const N_WORDS: nat := N_PAGES * WORDS_PER_PAGE
  const BLANK: bv32 := 0xFFFF_FFFF

  /** The words of the UICR are numbered on behind those of the flash, and make up a page of their own. */
  const UICR_PAGE: nat := N_PAGES

  function UicrWord(i: nat): nat {
    N_WORDS + i
  }

  const T_ERASE_ALL: nat := 173000
  const T_ERASE_PAGE: nat := 87500
  const T_WRITE: nat := 42

  function PageOf(word: nat): nat {
    word / WORDS_PER_PAGE
  }

  lemma PagesOf1024Words()
    ensures forall w: nat :: PageOf(w) == w / 1024
  {
  }

  // ---------- History ----------

  /** What has happened to the flash: words written and partial erases begun when they were accepted, erases when they
      ended. */
  datatype Effect =
    | Wrote(word: nat, value: bv32)
    | BeganPartial(page: nat, duration: nat)
    | Erased(page: nat)
    | ErasedAll

  /** Writing to flash clears bits, and sets none. */
  function Cleared(word: bv32, value: bv32): bv32 {
    word & value
  }

  function WordStep(before: bv32, e: Effect, word: nat): bv32 {
    match e
    case Wrote(w, value) => if w == word then Cleared(before, value) else before
    case Erased(p) => if p == PageOf(word) then BLANK else before
    case ErasedAll => BLANK
    case BeganPartial(_, _) => before
  }

  /** A word after a history. */
  function WordAfter(h: seq<Effect>, word: nat): bv32 {
    if h == [] then BLANK else WordStep(WordAfter(h[..|h| - 1], word), h[|h| - 1], word)
  }

  /** The values written to a word since its page was last erased. */
  function WritesSinceErase(h: seq<Effect>, word: nat): seq<bv32> {
    if h == [] then []
    else
      var before := WritesSinceErase(h[..|h| - 1], word);
      match h[|h| - 1]
      case Wrote(w, value) => if w == word then before + [value] else before
      case Erased(p) => if p == PageOf(word) then [] else before
      case ErasedAll => []
      case BeganPartial(_, _) => before
  }

  function AllOf(values: seq<bv32>): bv32 {
    if values == [] then BLANK else Cleared(AllOf(values[..|values| - 1]), values[|values| - 1])
  }

  /** A word is all ones, and-ed with everything written to it since its page was last erased. */
  lemma {:induction false} WordIsAllWrites(h: seq<Effect>, word: nat)
    ensures WordAfter(h, word) == AllOf(WritesSinceErase(h, word))
  {
    hide Cleared;
    if h != [] {
      var t := h[..|h| - 1];
      WordIsAllWrites(t, word);
      if h[|h| - 1].Wrote? {
        var values := WritesSinceErase(t, word);
        assert (values + [h[|h| - 1].value])[..|values|] == values;
      }
    }
  }

  /** All of some bits are set in a word. */
  predicate AllSet(word: bv32, bits: bv32) {
    word & bits == bits
  }

  lemma NoNewBits(word: bv32, value: bv32, bits: bv32)
    requires AllSet(Cleared(word, value), bits)
    ensures AllSet(word, bits) && AllSet(value, bits)
  {
  }

  lemma CommonBitsStay(word: bv32, value: bv32, bits: bv32)
    requires AllSet(word, bits) && AllSet(value, bits)
    ensures AllSet(Cleared(word, value), bits)
  {
  }

  lemma BlankHasAll(bits: bv32)
    ensures AllSet(BLANK, bits)
  {
  }

  /** A write leaves exactly the bits that are set in both the word and the value. */
  lemma OnlyCommonBitsStay(word: bv32, value: bv32, bits: bv32)
    ensures AllSet(Cleared(word, value), bits) <==> AllSet(word, bits) && AllSet(value, bits)
  {
    if AllSet(Cleared(word, value), bits) {
      NoNewBits(word, value, bits);
    }
    if AllSet(word, bits) && AllSet(value, bits) {
      CommonBitsStay(word, value, bits);
    }
    hide Cleared, AllSet;
  }

  lemma {:induction false} BitsOfAll(values: seq<bv32>, bits: bv32)
    ensures AllSet(AllOf(values), bits) <==> forall v <- values :: AllSet(v, bits)
  {
    hide AllSet, Cleared;
    BlankHasAll(bits);
    if values != [] {
      var n := |values| - 1;
      BitsOfAll(values[..n], bits);
      OnlyCommonBitsStay(AllOf(values[..n]), values[n], bits);
      assert values == values[..n] + [values[n]];
    }
  }

  /** Bit by bit: a bit, or all of some bits, of a word are set if and only if they are set in every value that was
      written to it since its page was last erased; so they are all set when there was none. */
  lemma BitsOfWord(h: seq<Effect>, word: nat, bits: bv32)
    ensures AllSet(WordAfter(h, word), bits) <==> forall v <- WritesSinceErase(h, word) :: AllSet(v, bits)
  {
    WordIsAllWrites(h, word);
    BitsOfAll(WritesSinceErase(h, word), bits);
  }

  predicate MarkStep(before: bool, e: Effect, page: nat) {
    match e
    case Wrote(w, _) => before && PageOf(w) != page
    case Erased(p) => before || p == page
    case ErasedAll => true
    case BeganPartial(_, _) => before
  }

  /** Nothing was written to the page since it was last erased. */
  predicate MarkedErased(h: seq<Effect>, page: nat) {
    h == [] || MarkStep(MarkedErased(h[..|h| - 1], page), h[|h| - 1], page)
  }

  lemma {:induction false} MarkedErasedIsBlank(h: seq<Effect>, word: nat)
    requires MarkedErased(h, PageOf(word))
    ensures WritesSinceErase(h, word) == [] && WordAfter(h, word) == BLANK
  {
    if h != [] {
      match h[|h| - 1]
      case Wrote(_, _) => MarkedErasedIsBlank(h[..|h| - 1], word);
      case Erased(p) => if p != PageOf(word) { MarkedErasedIsBlank(h[..|h| - 1], word); }
      case ErasedAll =>
      case BeganPartial(_, _) => MarkedErasedIsBlank(h[..|h| - 1], word);
    }
  }

  function TimeStep(before: nat, marked: bool, e: Effect, page: nat): nat {
    match e
    case BeganPartial(p, duration) => if p == page && !marked then before + duration else before
    case Erased(p) => if p == page then 0 else before
    case ErasedAll => 0
    case Wrote(_, _) => before
  }

  /** How long a page was under partial erases, while not marked erased, since it was last erased. */
  function TimeUnderErase(h: seq<Effect>, page: nat): nat {
    if h == [] then 0
    else TimeStep(TimeUnderErase(h[..|h| - 1], page), MarkedErased(h[..|h| - 1], page), h[|h| - 1], page)
  }

  /** One more effect. */
  lemma After(h: seq<Effect>, e: Effect)
    ensures forall w :: WordAfter(h + [e], w) == WordStep(WordAfter(h, w), e, w)
    ensures forall p :: MarkedErased(h + [e], p) == MarkStep(MarkedErased(h, p), e, p)
    ensures forall p :: TimeUnderErase(h + [e], p) == TimeStep(TimeUnderErase(h, p), MarkedErased(h, p), e, p)
  {
    hide WordStep, MarkStep, TimeStep;
    assert (h + [e])[..|h|] == h;
  }

  lemma PageOfAddress(address: nat)
    ensures PageOf(address / 4) == address / PAGE_SIZE
  {
    var page := address / 4096;
    assert page * 4096 <= address < page * 4096 + 4096;
    DivIs(address / 4, 1024, page);
  }

  lemma WordsOfPage(page: nat)
    ensures forall w: nat :: PageOf(w) == page <==> page * WORDS_PER_PAGE <= w < page * WORDS_PER_PAGE + WORDS_PER_PAGE
  {
    forall w: nat
      ensures PageOf(w) == page <==> page * 1024 <= w < page * 1024 + 1024
    {
      assert w / 1024 * 1024 <= w < w / 1024 * 1024 + 1024;
      if page * 1024 <= w < page * 1024 + 1024 {
        DivIs(w, 1024, page);
      }
    }
  }

  lemma UicrWordsAreOnePage(n: nat)
    requires n <= WORDS_PER_PAGE
    ensures forall i: nat :: i < n ==> PageOf(UicrWord(i)) == UICR_PAGE
  {
    WordsOfPage(UICR_PAGE);
  }

  // ---------- The peripheral ----------

  datatype Config = ReadOnly | WriteEnabled | EraseEnabled

  datatype Operation = Idle | Writing | ErasingPage | ErasingPartially | ErasingUicr | ErasingAll

  /** An access is carried out, or ignored with a warning, or ends the simulation. */
  datatype Outcome = Accepted | Ignored | Fatal

  class Controller {
    // Where the UICR is, which cannot be erased by page.
    const uicrBase: nat
    const uicr: array<bv32>

    var now: int
    var config: Config
    var partialCfg: nat
    var ready: bool
    var readyNext: bool
    var op: Operation
    var timer: Option<int>
    var eraseAddress: nat
    const flash: array<bv32>
    const timeUnderErase: array<nat>
    const pageErased: array<bool>
    ghost var history: seq<Effect>

    ghost predicate Valid()
      reads this, flash, uicr, timeUnderErase, pageErased
    {
      && flash.Length == N_WORDS && timeUnderErase.Length == pageErased.Length == N_PAGES
      && uicr.Length <= WORDS_PER_PAGE && uicrBase % 4 == 0
      && uicr != flash && (uicr as object) != pageErased && (uicr as object) != timeUnderErase
      && (forall i :: 0 <= i < uicr.Length ==> uicr[i] == WordAfter(history, UicrWord(i)))
      && (op.Idle? <==> ready) && (ready <==> readyNext) && (ready <==> timer.None?)
      && (op.ErasingPage? || op.ErasingPartially? ==> eraseAddress < FLASH_SIZE)
      && (forall w :: 0 <= w < N_WORDS ==> flash[w] == WordAfter(history, w))
      && (forall p :: 0 <= p < N_PAGES ==> pageErased[p] == MarkedErased(history, p))
      && (forall p :: 0 <= p < N_PAGES ==> timeUnderErase[p] == TimeUnderErase(history, p))
      && (forall p :: 0 <= p < N_PAGES && !(op.ErasingPartially? && p == eraseAddress / PAGE_SIZE) ==>
            timeUnderErase[p] < T_ERASE_PAGE)
    }

    constructor (uicrBase: nat, uicrWords: nat)
      requires uicrBase % 4 == 0 && uicrWords <= WORDS_PER_PAGE
      ensures Valid() && op == Idle && history == [] && uicr.Length == uicrWords && this.uicrBase == uicrBase
      ensures now == 0 && config == ReadOnly && partialCfg == 10 && timer == None && eraseAddress == 0
      ensures flash.Length == 0x2_0000 && pageErased.Length == 128
      ensures fresh(flash) && fresh(uicr) && fresh(timeUnderErase) && fresh(pageErased)
      ensures forall w :: 0 <= w < N_WORDS ==> flash[w] == BLANK
    {
      this.uicrBase, uicr := uicrBase, new bv32[uicrWords](_ => BLANK);
      now, config, partialCfg, ready, readyNext, op, timer, eraseAddress := 0, ReadOnly, 10, true, true, Idle, None, 0;
      flash := new bv32[N_WORDS](_ => BLANK);
      timeUnderErase := new nat[N_PAGES](_ => 0);
      pageErased := new bool[N_PAGES](_ => true);
      history := [];
    }

    method Begin(operation: Operation, duration: nat)
      modifies `op, `ready, `readyNext, `timer
      ensures op == operation && !ready && !readyNext && timer == Some(now + duration)
    {
      op := operation;
      ready := false;
      readyNext := false;
      timer := Some(now + duration);
    }

    method ErasePage(address: nat) returns (outcome: Outcome)
      requires Valid()
      modifies this
      ensures Valid() && history == old(history) && now == old(now) && config == old(config)
      ensures outcome == if config != EraseEnabled || !old(op.Idle?) then Ignored
                         else if address >= 0x8_0000 then Fatal else Accepted
      ensures outcome == Accepted ==> op == ErasingPage && eraseAddress == address && timer == Some(now + 87500)
      ensures outcome != Accepted ==> op == old(op) && timer == old(timer) && eraseAddress == old(eraseAddress)
    {
      if config != EraseEnabled || op != Idle {
        return Ignored;
      }
      if address >= FLASH_SIZE {
        return Fatal;
      }
      Begin(ErasingPage, T_ERASE_PAGE);
      eraseAddress := address;
      outcome := Accepted;
    }

    method EraseUicr() returns (outcome: Outcome)
      requires Valid()
      modifies this
      ensures Valid() && history == old(history) && now == old(now) && config == old(config)
      ensures outcome == if config != EraseEnabled || !old(op.Idle?) then Ignored else Accepted
      ensures outcome == Accepted ==> op == ErasingUicr && timer == Some(now + 87500)
      ensures outcome != Accepted ==> op == old(op) && timer == old(timer) && eraseAddress == old(eraseAddress)
    {
      if config != EraseEnabled || op != Idle {
        return Ignored;
      }
      Begin(ErasingUicr, T_ERASE_PAGE);
      outcome := Accepted;
    }

    method EraseAll() returns (outcome: Outcome)
      requires Valid()
      modifies this
      ensures Valid() && history == old(history) && now == old(now) && config == old(config)
      ensures outcome == if config != EraseEnabled || !old(op.Idle?) then Ignored else Accepted
      ensures outcome == Accepted ==> op == ErasingAll && timer == Some(now + 173000)
      ensures outcome != Accepted ==> op == old(op) && timer == old(timer) && eraseAddress == old(eraseAddress)
    {
      if config != EraseEnabled || op != Idle {
        return Ignored;
      }
      Begin(ErasingAll, T_ERASE_ALL);
      outcome := Accepted;
    }

    /** The time counts from the moment the operation is accepted, but not for a page that is marked erased. */
    method ErasePartially(address: nat) returns (outcome: Outcome)
      requires Valid()
      modifies this, timeUnderErase
      ensures Valid() && now == old(now) && config == old(config)
      ensures outcome == if config != EraseEnabled || !old(op.Idle?) then Ignored
                         else if address >= 0x8_0000 then Fatal else Accepted
      ensures outcome == Accepted ==>
        && op == ErasingPartially && eraseAddress == address && timer == Some(now + partialCfg * 1000)
        && history == old(history) + [BeganPartial(address / 4096, partialCfg * 1000)]
      ensures outcome != Accepted ==> op == old(op) && timer == old(timer) && history == old(history)
    {
      hide WordAfter, MarkedErased, TimeUnderErase, Cleared, PageOf;
      if config != EraseEnabled || op != Idle {
        return Ignored;
      }
      if address >= FLASH_SIZE {
        return Fatal;
      }
      eraseAddress := address;
      var duration := partialCfg * 1000;
      var page := address / PAGE_SIZE;
      Begin(ErasingPartially, duration);
      if !pageErased[page] {
        timeUnderErase[page] := timeUnderErase[page] + duration;
      }
      After(history, BeganPartial(page, duration));
      history := history + [BeganPartial(page, duration)];
      outcome := Accepted;
    }

    predicate InUicr(address: nat) {
      uicrBase <= address < uicrBase + 4 * uicr.Length
    }

    method WriteFlash(address: nat, value: bv32)
      requires Valid() && op.Idle? && address < 0x8_0000 && address % 4 == 0
      modifies `history, `op, `ready, `readyNext, `timer, flash, pageErased
      ensures op == Writing && timer == Some(now + 42)
      ensures Valid() && history == old(history) + [Wrote(address / 4, value)]
      ensures flash[..] == old(flash[..])[address / 4 := old(flash[address / 4]) & value] && uicr[..] == old(uicr[..])
    {
      hide WordAfter, MarkedErased, TimeUnderErase, PageOf;
      UicrWordsAreOnePage(uicr.Length);
      PageOfAddress(address);
      pageErased[address / PAGE_SIZE] := false;
      var word := address / 4;
      flash[word] := Cleared(flash[word], value);
      After(history, Wrote(word, value));
      history := history + [Wrote(word, value)];
      Begin(Writing, T_WRITE);
    }

    method WriteUicr(i: nat, value: bv32)
      requires Valid() && op.Idle? && i < uicr.Length
      modifies `history, `op, `ready, `readyNext, `timer, uicr
      ensures op == Writing && timer == Some(now + 42)
      ensures Valid() && history == old(history) + [Wrote(UicrWord(i), value)]
      ensures uicr[..] == old(uicr[..])[i := old(uicr[i]) & value] && flash[..] == old(flash[..])
    {
      hide WordAfter, MarkedErased, TimeUnderErase, PageOf;
      UicrWordsAreOnePage(uicr.Length);
      uicr[i] := Cleared(uicr[i], value);
      After(history, Wrote(UicrWord(i), value));
      history := history + [Wrote(UicrWord(i), value)];
      Begin(Writing, T_WRITE);
    }

    method WriteWord(address: nat, value: bv32) returns (outcome: Outcome)
      requires Valid()
      modifies this, flash, uicr, pageErased
      ensures Valid() && now == old(now) && config == old(config)
      ensures outcome == if !old(op.Idle?) then Ignored
                         else if address % 4 != 0 then Fatal
                         else if config != WriteEnabled then Ignored
                         else if address < 0x8_0000 || uicrBase <= address < uicrBase + 4 * uicr.Length then Accepted
                         else Fatal
      ensures outcome == Accepted ==> op == Writing && timer == Some(now + 42)
      ensures outcome != Accepted ==> op == old(op) && timer == old(timer) && eraseAddress == old(eraseAddress)
      ensures history == old(history)
        + if outcome != Accepted then []
          else [Wrote(if address < 0x8_0000 then address / 4 else UicrWord((address - uicrBase) / 4), value)]
      ensures outcome == Accepted && address < 0x8_0000 ==>
        flash[..] == old(flash[..])[address / 4 := old(flash[address / 4]) & value]
      ensures outcome != Accepted || address >= 0x8_0000 ==> flash[..] == old(flash[..])
      ensures outcome == Accepted && address >= 0x8_0000 ==>
        var i := (address - uicrBase) / 4;
        uicr[..] == old(uicr[..])[i := old(uicr[i]) & value]
      ensures outcome != Accepted || address < 0x8_0000 ==> uicr[..] == old(uicr[..])
    {
      hide WordAfter, MarkedErased, TimeUnderErase, Cleared, PageOf;
      if op != Idle {
        return Ignored;
      }
      if address % 4 != 0 {
        return Fatal;
      }
      if config != WriteEnabled {
        return Ignored;
      }
      if address < FLASH_SIZE {
        WriteFlash(address, value);
      } else if InUicr(address) {
        WriteUicr((address - uicrBase) / 4, value);
      } else {
        return Fatal;
      }
      outcome := Accepted;
    }

    /** An aligned read: all ones, and-ed with what was written since the page was last erased; nothing when neither
        the flash nor the UICR is there. */
    method ReadWord(address: nat) returns (value: Option<bv32>)
      requires Valid() && address % 4 == 0
      ensures value.Some? <==> address < 0x8_0000 || uicrBase <= address < uicrBase + 4 * uicr.Length
      ensures value.Some? ==>
        var word := if address < 0x8_0000 then address / 4 else UicrWord((address - uicrBase) / 4);
        forall bits :: AllSet(value.value, bits) <==> forall v <- WritesSinceErase(history, word) :: AllSet(v, bits)
    {
      hide AllSet, WordAfter, WritesSinceErase;
      if address < FLASH_SIZE {
        value := Some(flash[address / 4]);
        ReadBits(address / 4);
      } else if InUicr(address) {
        value := Some(uicr[(address - uicrBase) / 4]);
        ReadBits(UicrWord((address - uicrBase) / 4));
      } else {
        value := None;
      }
    }

    lemma ReadBits(word: nat)
      ensures forall bits ::
        AllSet(WordAfter(history, word), bits) <==> forall v <- WritesSinceErase(history, word) :: AllSet(v, bits)
    {
      hide AllSet, WordAfter, WritesSinceErase;
      forall bits
        ensures AllSet(WordAfter(history, word), bits) <==>
          forall v <- WritesSinceErase(history, word) :: AllSet(v, bits)
      {
        BitsOfWord(history, word, bits);
      }
    }

    method BlankPage(page: nat)
      requires flash.Length == N_WORDS && page < N_PAGES
      modifies flash
      ensures forall w :: 0 <= w < N_WORDS ==> flash[w] == if PageOf(w) == page then BLANK else old(flash[w])
    {
      var first := page * WORDS_PER_PAGE;
      WordsOfPage(page);
      hide PageOf;
      forall w | first <= w < first + WORDS_PER_PAGE {
        flash[w] := BLANK;
      }
    }

    method CompleteErase()
      requires Valid() && eraseAddress < 0x8_0000 && !op.Idle?
      modifies `history, flash, timeUnderErase, pageErased
      ensures flash.Length == N_WORDS && timeUnderErase.Length == pageErased.Length == N_PAGES
      ensures history == old(history) + [Erased(eraseAddress / 4096)]
      ensures forall w :: 0 <= w < N_WORDS ==>
        flash[w] == if w / 1024 == eraseAddress / 4096 then 0xFFFF_FFFF else old(flash[w])
      ensures forall w :: 0 <= w < N_WORDS ==> flash[w] == WordAfter(history, w)
      ensures forall p :: 0 <= p < N_PAGES ==> pageErased[p] == MarkedErased(history, p)
      ensures forall p :: 0 <= p < N_PAGES ==> timeUnderErase[p] == TimeUnderErase(history, p) < T_ERASE_PAGE
      ensures forall i :: 0 <= i < uicr.Length ==> uicr[i] == WordAfter(history, UicrWord(i))
    {
      hide WordAfter, MarkedErased, TimeUnderErase, Cleared, PageOf;
      UicrWordsAreOnePage(uicr.Length);
      PagesOf1024Words();
      var page := eraseAddress / PAGE_SIZE;
      After(history, Erased(page));
      BlankPage(page);
      timeUnderErase[page] := 0;
      pageErased[page] := true;
      history := history + [Erased(page)];
    }

    method BlankUicr()
      modifies uicr
      ensures forall i :: 0 <= i < uicr.Length ==> uicr[i] == BLANK
    {
      forall i | 0 <= i < uicr.Length {
        uicr[i] := BLANK;
      }
    }

    method CompleteEraseUicr()
      requires Valid() && op.ErasingUicr?
      modifies `history, uicr
      ensures history == old(history) + [Erased(UICR_PAGE)]
      ensures forall i :: 0 <= i < uicr.Length ==> uicr[i] == WordAfter(history, UicrWord(i)) == BLANK
      ensures forall w :: 0 <= w < N_WORDS ==> flash[w] == WordAfter(history, w)
      ensures forall p :: 0 <= p < N_PAGES ==> pageErased[p] == MarkedErased(history, p)
      ensures forall p :: 0 <= p < N_PAGES ==> timeUnderErase[p] == TimeUnderErase(history, p)
    {
      hide WordAfter, MarkedErased, TimeUnderErase, Cleared, PageOf;
      UicrWordsAreOnePage(uicr.Length);
      WordsOfPage(UICR_PAGE);
      After(history, Erased(UICR_PAGE));
      BlankUicr();
      history := history + [Erased(UICR_PAGE)];
    }

    method CompleteEraseAll()
      requires Valid() && op.ErasingAll?
      modifies `history, flash, uicr, timeUnderErase, pageErased
      ensures flash.Length == N_WORDS && timeUnderErase.Length == pageErased.Length == N_PAGES
      ensures history == old(history) + [ErasedAll]
      ensures forall w :: 0 <= w < N_WORDS ==> flash[w] == WordAfter(history, w)
      ensures forall p :: 0 <= p < N_PAGES ==> pageErased[p] == MarkedErased(history, p)
      ensures forall p :: 0 <= p < N_PAGES ==> timeUnderErase[p] == TimeUnderErase(history, p) < T_ERASE_PAGE
      ensures forall i :: 0 <= i < uicr.Length ==> uicr[i] == WordAfter(history, UicrWord(i)) == BLANK
    {
      hide WordAfter, MarkedErased, TimeUnderErase, Cleared, PageOf;
      After(history, ErasedAll);
      BlankUicr();
      forall w | 0 <= w < N_WORDS {
        flash[w] := BLANK;
      }
      var i := 0;
      while i < N_PAGES
        invariant 0 <= i <= N_PAGES && history == old(history)
        invariant forall k :: 0 <= k < uicr.Length ==> uicr[k] == BLANK
        invariant forall w :: 0 <= w < N_WORDS ==> flash[w] == BLANK
        invariant forall p :: 0 <= p < i ==> timeUnderErase[p] == 0 && pageErased[p]
      {
        timeUnderErase[i] := 0;
        pageErased[i] := true;
        i := i + 1;
      }
      history := history + [ErasedAll];
    }

    /** The operation ends. A partial erase wipes its page exactly when the time under erase has reached that of a whole
        erase. */
    method TimerTriggered()
      requires Valid() && timer.Some?
      modifies this, flash, uicr, timeUnderErase, pageErased
      ensures Valid() && op == Idle && now == old(timer.value) && config == old(config)
      ensures history == old(history) + match old(op)
        case ErasingPage => [Erased(old(eraseAddress) / 4096)]
        case ErasingUicr => [Erased(UICR_PAGE)]
        case ErasingAll => [ErasedAll]
        case ErasingPartially =>
          if TimeUnderErase(old(history), old(eraseAddress) / 4096) >= T_ERASE_PAGE
          then [Erased(old(eraseAddress) / 4096)] else []
        case _ => []
    {
      now := timer.value;
      match op {
        case Writing =>
        case ErasingPage => CompleteErase();
        case ErasingPartially =>
          if timeUnderErase[eraseAddress / PAGE_SIZE] >= T_ERASE_PAGE {
            CompleteErase();
          }
        case ErasingUicr => CompleteEraseUicr();
        case ErasingAll => CompleteEraseAll();
      }
      op := Idle;
      ready := true;
      readyNext := true;
      timer := None;
    }

    method TimeToReady() returns (t: int)
      requires Valid()
      ensures t == if op.Idle? then 0 else timer.value - now
    {
      if ready {
        t := 0;
      } else {
        t := timer.value - now;
      }
    }

    method WriteConfig(value: Config)
      requires Valid()
      modifies `config
      ensures Valid() && config == value
    {
      config := value;
    }

    /** A page marked erased is blank. */
    lemma MarkedPagesAreBlank(page: nat)
      requires Valid() && page < N_PAGES && pageErased[page]
      ensures forall w :: 0 <= w < N_WORDS && PageOf(w) == page ==> flash[w] == BLANK
    {
      forall w | 0 <= w < N_WORDS && PageOf(w) == page
        ensures flash[w] == BLANK
      {
        MarkedErasedIsBlank(history, w);
      }
    }
  }
}
