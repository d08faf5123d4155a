/**
 * The user's history screen: one entry per raffle the user holds numbers
 * in, whether one of them won, newest raffle first; and the video address
 * read back out of the stored player markup.
 */
module UserHistory {
  import opened Wrappers
  import opened Records
  import Seqs
  import ArraySort
  import opened Text
  import opened RaffleManagement

  /** A raffle with the user's numbers in it and whether one of them won. */
  datatype HistoryEntry = HistoryEntry(sorteio: Sorteio, userNumbers: seq<NumeroRifa>, isWinner: bool)

  /** `numbersInRaffle.some(n => sorteio.numeros_premiados?.includes(n.numero_gerado))`. */
  predicate IsWinner(sorteio: Sorteio, numbers: seq<NumeroRifa>)
  {
    sorteio.numeros_premiados.Some? &&
    exists i | 0 <= i < |numbers| :: numbers[i].numero_gerado in sorteio.numeros_premiados.value
  }

  /** The entry built for one raffle. */
  function Entry(sorteio: Sorteio, userNumbers: seq<NumeroRifa>): (e: HistoryEntry)
    ensures e.sorteio == sorteio
    ensures forall n :: n in e.userNumbers <==> n in userNumbers && n.id_sorteio == sorteio.id
    ensures sorteio.numeros_premiados.None? ==> !e.isWinner
  {
    var numbersInRaffle := NumbersIn(userNumbers, sorteio.id);
    HistoryEntry(sorteio, numbersInRaffle, IsWinner(sorteio, numbersInRaffle))
  }

  /** `allSorteios.map(...)`: one entry per raffle, in stored order. */
  function Entries(ss: seq<Sorteio>, userNumbers: seq<NumeroRifa>): (r: seq<HistoryEntry>)
    ensures |r| == |ss|
    ensures forall i :: 0 <= i < |ss| ==> r[i] == Entry(ss[i], userNumbers)
  {
    seq(|ss|, i requires 0 <= i < |ss| => Entry(ss[i], userNumbers))
  }

  function StartKey(e: HistoryEntry): real
  {
    e.sorteio.data_inicio as real
  }

  predicate HasNumbers(e: HistoryEntry)
  {
    |e.userNumbers| > 0
  }

  /**
   * The history the screen shows: the user's numbers grouped by raffle,
   * raffles where the user has none dropped, newest `data_inicio` first.
   */
  function History(ns: seq<NumeroRifa>, ss: seq<Sorteio>, userId: string): (h: seq<HistoryEntry>)
    ensures Seqs.SortedDesc(h, StartKey)
    ensures |h| <= |ss|
    ensures forall e :: e in h <==> e in Entries(ss, NumbersOf(ns, userId)) && HasNumbers(e)
  {
    var kept := Seqs.Filter(Entries(ss, NumbersOf(ns, userId)), HasNumbers);
    Seqs.SortDescSameElements(kept, StartKey);
    Seqs.SortDesc(kept, StartKey)
  }

  /** `loadHistory`: the entries are built and filtered, then sorted in place. */
  method LoadHistory(ns: seq<NumeroRifa>, ss: seq<Sorteio>, userId: string) returns (history: seq<HistoryEntry>)
    ensures history == History(ns, ss, userId)
  {
    var kept := Seqs.Filter(Entries(ss, NumbersOf(ns, userId)), HasNumbers);
    var userHistory := new HistoryEntry[|kept|](i requires 0 <= i < |kept| => kept[i]);
    assert userHistory[..] == kept;
    ArraySort.SortDescInPlace(userHistory, StartKey);
    history := userHistory[..];
  }

  /** Each entry holds exactly the user's numbers in that raffle, and at least one. */
  lemma HistoryEntryNumbers(ns: seq<NumeroRifa>, ss: seq<Sorteio>, userId: string, e: HistoryEntry)
    requires e in History(ns, ss, userId)
    ensures e.sorteio in ss && e.userNumbers != []
    ensures forall n :: n in e.userNumbers <==> n in ns && n.id_usuario == userId && n.id_sorteio == e.sorteio.id
    ensures e.isWinner == IsWinner(e.sorteio, e.userNumbers)
  {
    var entries := Entries(ss, NumbersOf(ns, userId));
    var i :| 0 <= i < |entries| && entries[i] == e;
  }

  /** A raffle's entry has numbers exactly when the list holds one of that raffle. */
  lemma EntryHasNumbersIff(s: Sorteio, userNumbers: seq<NumeroRifa>)
    ensures HasNumbers(Entry(s, userNumbers)) <==> exists n :: n in userNumbers && n.id_sorteio == s.id
  {
    var e := Entry(s, userNumbers);
    if exists n :: n in userNumbers && n.id_sorteio == s.id {
      var n :| n in userNumbers && n.id_sorteio == s.id;
      assert n in e.userNumbers;
    } else {
      Seqs.FilterNone(userNumbers, (n: NumeroRifa) => n.id_sorteio == s.id);
    }
  }

  /** A raffle has its entry in the history exactly when the user owns a number in it. */
  lemma HistoryHasRaffleIff(ns: seq<NumeroRifa>, ss: seq<Sorteio>, userId: string, k: nat)
    requires k < |ss|
    ensures Entry(ss[k], NumbersOf(ns, userId)) in History(ns, ss, userId) <==>
      exists n :: n in ns && n.id_usuario == userId && n.id_sorteio == ss[k].id
  {
    var mine := NumbersOf(ns, userId);
    assert Entries(ss, mine)[k] == Entry(ss[k], mine);
    EntryHasNumbersIff(ss[k], mine);
  }

  // ---------------------------------------------------------------- extractVideoUrl

  /** The first `"` at or after `from`. */
  function QuoteFrom(s: string, from: nat): (r: Option<nat>)
    ensures r.Some? ==> from <= r.value < |s| && s[r.value] == '"'
    ensures r.Some? ==> forall j :: from <= j < r.value ==> s[j] != '"'
    ensures r.None? ==> forall j :: from <= j < |s| ==> s[j] != '"'
    decreases |s| - from
  {
    if from >= |s| then None
    else if s[from] == '"' then Some(from)
    else QuoteFrom(s, from + 1)
  }

  /** `/src="([^"]+)"/` matches at `i`: `src="`, at least one non-quote, then `"`. */
  predicate SrcMatchAt(s: string, i: nat)
  {
    MatchAt(s, SrcAttr, i) &&
    match QuoteFrom(s, i + 5)
    case None => false
    case Some(j) => j > i + 5
  }

  function FirstSrcMatch(s: string, from: nat): (r: Option<nat>)
    ensures r.Some? ==> from <= r.value && SrcMatchAt(s, r.value)
    ensures r.Some? ==> forall j: nat :: from <= j < r.value ==> !SrcMatchAt(s, j)
    ensures r.None? ==> forall j: nat :: from <= j ==> !SrcMatchAt(s, j)
    decreases |s| - from
  {
    if from + 5 > |s| then None
    else if SrcMatchAt(s, from) then Some(from)
    else FirstSrcMatch(s, from + 1)
  }

  /** `extractVideoUrl`: the address in the first `src="..."`, or `''` without one. */
  function ExtractVideoUrl(iframe: string): (url: string)
    ensures url == [] <==> forall i: nat :: !SrcMatchAt(iframe, i)
    ensures '"' !in url
  {
    match FirstSrcMatch(iframe, 0)
    case None => []
    case Some(i) =>
      var j := QuoteFrom(iframe, i + 5).value;
      var url := iframe[i + 5..j];
      assert forall k :: 0 <= k < |url| ==> url[k] == iframe[i + 5 + k];
      url
  }

  /** The first quote at or after `start` is the one that closes `address`. */
  lemma QuoteClosesAddress(html: string, start: nat, address: string)
    requires start + |address| < |html| && html[start..start + |address|] == address
    requires '"' !in address && html[start + |address|] == '"'
    ensures QuoteFrom(html, start) == Some(start + |address|)
  {
    forall k | start <= k < start + |address| ensures html[k] != '"' {
      assert html[k] == address[k - start] && address[k - start] in address;
    }
  }

  /** Markup with no `s` before its `src="` holds no earlier `src="`. */
  lemma NoEarlierSrc(html: string, prefix: string)
    requires prefix <= html && 's' !in prefix
    ensures forall i: nat :: i < |prefix| ==> !MatchAt(html, SrcAttr, i)
  {
    forall i: nat | i < |prefix| ensures !MatchAt(html, SrcAttr, i) {
      assert html[i] == prefix[i] && prefix[i] in prefix;
      if i + 5 <= |html| {
        assert html[i..i + 5][0] == html[i];
      }
    }
  }

  /**
   * The address is read back from any markup that has no `s` before its
   * `src="`, when the address holds no quote and a quote follows it.
   */
  lemma {:induction false} ExtractFromMarkup(before: string, address: string, after: string)
    requires 's' !in before && '"' !in address && address != []
    requires after != [] && after[0] == '"'
    ensures ExtractVideoUrl(before + SrcAttr + address + after) == address
  {
    var html := before + SrcAttr + address + after;
    var i := |before|;
    var start := i + 5;
    var end := start + |address|;
    assert html[i..start] == SrcAttr;
    assert html[start..end] == address;
    assert html[end] == after[0];
    QuoteClosesAddress(html, start, address);
    assert SrcMatchAt(html, i);
    assert before <= html;
    NoEarlierSrc(html, before);
    assert FirstSrcMatch(html, 0) == Some(i) by {
      assert FirstSrcMatch(html, 0).Some?;
    }
  }

  lemma Regroup(a: string, b: string, c: string, d: string, e: string)
    ensures (a + b) + c + d + e == a + b + (c + d) + e
  {
  }

  /** The generated markup, split around the address that follows `src="`. */
  lemma ConvertShape(url: string)
    ensures ConvertToIframe(url) == IframeOpen + SrcAttr + (EmbedUrl(url) + ControlsQuery) + IframeTail
  {
    Regroup(IframeOpen, SrcAttr, EmbedUrl(url), ControlsQuery, IframeTail);
  }

  /** Facts about the fixed pieces of the markup. */
  lemma MarkupPieces()
    ensures 's' !in IframeOpen
    ensures IframeTail != [] && IframeTail[0] == '"'
    ensures '"' !in ControlsQuery
  {
  }

  /**
   * Reading back a generated player gives the embed address with
   * `?controls=0`, provided that address holds no `"`.
   */
  lemma ExtractConvertRoundTrip(url: string)
    requires '"' !in EmbedUrl(url)
    ensures ExtractVideoUrl(ConvertToIframe(url)) == EmbedUrl(url) + ControlsQuery
  {
    MarkupPieces();
    var address := EmbedUrl(url) + ControlsQuery;
    assert '"' !in address;
    ConvertShape(url);
    ExtractFromMarkup(IframeOpen, address, IframeTail);
  }
}
