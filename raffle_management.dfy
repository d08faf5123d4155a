/**
 * The admin's raffle screen: opening a raffle (which closes the open one),
 * the video link, drawing the winners and the per-raffle figures.
 */
module RaffleManagement {
  import opened Wrappers
  import opened Records
  import Seqs
  import opened Text
  import opened Raffle
  import opened Storage

  // ---------------------------------------------------------------- video link

  const WatchMarker: string := "youtube.com/watch?v="
  const ShortMarker: string := "youtu.be/"
  const EmbedBase: string := "https://www.youtube.com/embed/"
  const IframeOpen: string := "<iframe width=\"560\" height=\"315\" "
  const SrcAttr: string := "src=\""
  const ControlsQuery: string := "?controls=0"
  const IframeHead: string := IframeOpen + SrcAttr
  const IframeTail: string := "\"" + IframeAttributes
  const IframeAttributes: string :=
    " title=\"YouTube video player\" frameborder=\"0\" allow=\"accelerometer; autoplay; clipboard-write; " +
    "encrypted-media; gyroscope; picture-in-picture; web-share\" " +
    "referrerpolicy=\"strict-origin-when-cross-origin\" allowfullscreen></iframe>"

  /**
   * The `embedUrl` of `convertToIframe`: a watch URL gives the text between
   * its first and second `v=`, cut at `&`; a short URL gives the text between
   * its first and second `youtu.be/`, cut at `?`; anything else is kept.
   */
  function EmbedUrl(url: string): (e: string)
    ensures !Contains(url, WatchMarker) && !Contains(url, ShortMarker) ==> e == url
    ensures Contains(url, WatchMarker) || Contains(url, ShortMarker) ==>
      EmbedBase <= e && |e| <= |EmbedBase| + |url|
    ensures Contains(url, WatchMarker) ==> !Contains(e[|EmbedBase|..], "&")
    ensures !Contains(url, WatchMarker) && Contains(url, ShortMarker) ==> !Contains(e[|EmbedBase|..], "?")
  {
    if Contains(url, WatchMarker) then
      assert MatchAt(url, "v=", IndexOf(url, WatchMarker).value + 18);
      var piece := SecondPiece(url, "v=").value;
      EmbedBase + Before(piece, "&")
    else if Contains(url, ShortMarker) then
      var piece := SecondPiece(url, ShortMarker).value;
      EmbedBase + Before(piece, "?")
    else url
  }

  /** `convertToIframe`: the embed URL, with `?controls=0`, inside the player markup. */
  function ConvertToIframe(url: string): (html: string)
    ensures IframeHead <= html
  {
    IframeHead + EmbedUrl(url) + ControlsQuery + IframeTail
  }

  /** A watch URL up to its `v=`, which is the first `v=` in it. */
  const WatchPage: string := "https://www.youtube.com/watch?"
  const WatchPrefix: string := WatchPage + "v="

  /**
   * No `pat` starts inside the id or at its end when what follows starts
   * with a character `pat` does not contain.
   */
  lemma NoMatchBeforeStop(id: string, query: string, pat: string, stop: char)
    requires pat != [] && stop !in pat && !Contains(id, pat)
    requires query == [] || query[0] == stop
    ensures forall k: nat :: k <= |id| ==> !MatchAt(id + query, pat, k)
  {
    var x := id + query;
    forall k: nat | k <= |id| ensures !MatchAt(x, pat, k) {
      if k + |pat| <= |id| {
        assert x[k..k + |pat|] == id[k..k + |pat|];
        assert !MatchAt(id, pat, k);
      } else if k + |pat| <= |x| {
        assert x[|id|] == stop;
        assert x[k..k + |pat|][|id| - k] == stop;
      }
    }
  }

  /**
   * The text after an id up to the next `pat` is the id followed by nothing
   * or by a part starting with `stop`.
   */
  lemma CutAtNext(id: string, query: string, pat: string, stop: char)
    requires pat != [] && stop !in pat && !Contains(id, pat)
    requires query == [] || query[0] == stop
    ensures exists q :: q <= query && (q == [] || q[0] == stop) && Before(id + query, pat) == id + q
  {
    var x := id + query;
    NoMatchBeforeStop(id, query, pat, stop);
    match IndexOf(x, pat)
    case None =>
      assert Before(x, pat) == id + query;
    case Some(k) =>
      assert k > |id|;
      assert x[..k] == id + query[..k - |id|];
  }

  /** In a watch URL the marker occurs and the first `v=` is the one before the id. */
  lemma WatchUrlShape(rest: string)
    ensures Contains(WatchPrefix + rest, WatchMarker)
    ensures SecondPiece(WatchPrefix + rest, "v=") == Some(Before(rest, "v="))
  {
    var url := WatchPrefix + rest;
    assert |WatchPage| == 30;
    assert url[12..32] == WatchMarker by {
      assert url[..32] == WatchPrefix;
      assert WatchPage[12..] == "youtube.com/watch?";
    }
    assert MatchAt(url, WatchMarker, 12);
    assert 'v' !in WatchPage;
    forall j: nat | j < 30 ensures !MatchAt(url, "v=", j) {
      assert url[j] == WatchPage[j];
      assert WatchPage[j] in WatchPage;
      assert url[j..j + 2][0] == url[j];
    }
    assert url[30..32] == "v=";
    IndexOfIs(url, "v=", 30);
    assert url[32..] == rest;
  }

  /** The id is cut at the `stop` that ends it, or is the whole remainder. */
  lemma CutAtStop(id: string, q: string, stop: char)
    requires stop !in id
    requires q == [] || q[0] == stop
    ensures Before(id + q, [stop]) == id
  {
    var y := id + q;
    if q == [] {
      assert y == id;
      forall j: nat ensures !MatchAt(id, [stop], j) {
        if j < |id| { assert id[j] in id; assert id[j..j + 1][0] == id[j]; }
      }
      BeforeWhole(id, [stop]);
    } else {
      assert y[|id|..|id| + 1] == [stop];
      assert MatchAt(y, [stop], |id|);
      forall j: nat | j < |id| ensures !MatchAt(y, [stop], j) {
        assert y[j] == id[j] && id[j] in id;
        assert y[j..j + 1][0] == y[j];
      }
      BeforeIs(y, [stop], |id|);
      assert y[..|id|] == id;
    }
  }

  /**
   * A watch URL whose id has no `&` and no `v=`, followed by nothing or by
   * `&...`, embeds exactly that id.
   */
  lemma EmbedWatchUrl(id: string, query: string)
    requires '&' !in id && !Contains(id, "v=")
    requires query == [] || query[0] == '&'
    ensures EmbedUrl(WatchPrefix + id + query) == EmbedBase + id
  {
    assert WatchPrefix + id + query == WatchPrefix + (id + query);
    WatchUrlShape(id + query);
    CutAtNext(id, query, "v=", '&');
    var q :| q <= query && (q == [] || q[0] == '&') && Before(id + query, "v=") == id + q;
    CutAtStop(id, q, '&');
  }

  /** A short URL up to the id. */
  const ShortPrefix: string := "https://" + ShortMarker

  /** In a short URL the first `youtu.be/` is the one before the id. */
  lemma ShortUrlShape(rest: string)
    ensures Contains(ShortPrefix + rest, ShortMarker)
    ensures SecondPiece(ShortPrefix + rest, ShortMarker) == Some(Before(rest, ShortMarker))
  {
    var url := ShortPrefix + rest;
    assert url[8..17] == ShortMarker by {
      assert url[..17] == ShortPrefix;
    }
    assert MatchAt(url, ShortMarker, 8);
    assert 'y' !in "https://";
    forall j: nat | j < 8 ensures !MatchAt(url, ShortMarker, j) {
      assert url[j] == "https://"[j];
      assert "https://"[j] in "https://";
      assert url[j..j + 9][0] == url[j];
    }
    IndexOfIs(url, ShortMarker, 8);
    assert url[17..] == rest;
  }

  /**
   * A short URL whose id has no `?` and no `youtu.be/`, followed by nothing
   * or by `?...`, embeds exactly that id (when the URL is not also a watch URL,
   * which takes precedence).
   */
  lemma EmbedShortUrl(id: string, query: string)
    requires '?' !in id && !Contains(id, ShortMarker)
    requires query == [] || query[0] == '?'
    requires !Contains(ShortPrefix + id + query, WatchMarker)
    ensures EmbedUrl(ShortPrefix + id + query) == EmbedBase + id
  {
    assert ShortPrefix + id + query == ShortPrefix + (id + query);
    ShortUrlShape(id + query);
    CutAtNext(id, query, ShortMarker, '?');
    var q :| q <= query && (q == [] || q[0] == '?') && Before(id + query, ShortMarker) == id + q;
    CutAtStop(id, q, '?');
  }

  // ---------------------------------------------------------------- createRaffle

  /** Every open raffle becomes closed, ended at `now`; the others stay as they are. */
  function CloseOpen(ss: seq<Sorteio>, now: int): (r: seq<Sorteio>)
    ensures |r| == |ss|
    ensures forall i :: 0 <= i < |ss| && ss[i].status == Encerrado ==> r[i] == ss[i]
    ensures forall i :: 0 <= i < |ss| && ss[i].status == Aberto ==> r[i] == ss[i].(status := Encerrado, data_fim := Some(now))
    ensures forall x :: x in r ==> x.status == Encerrado
  {
    seq(|ss|, i requires 0 <= i < |ss| =>
      if ss[i].status == Aberto then ss[i].(status := Encerrado, data_fim := Some(now)) else ss[i])
  }

  /** The raffle `createRaffle` appends: open, started at `now`, with the video embedded if given. */
  function NewRaffle(id: string, nome: string, videoLink: string, now: int): (s: Sorteio)
    ensures s.status == Aberto && s.data_inicio == now && s.nome == Trim(nome)
    ensures s.data_fim.None? && s.ganhador_id.None? && s.numeros_premiados.None?
    ensures s.video_link.None? <==> Trim(videoLink) == []
  {
    Sorteio(id, Trim(nome), now, None, Aberto, None,
            if Trim(videoLink) != [] then Some(ConvertToIframe(Trim(videoLink))) else None, None)
  }

  /** After creating a raffle exactly one raffle is open: the new one. */
  lemma CreatedIsTheOnlyOpen(ss: seq<Sorteio>, now: int, novo: Sorteio)
    requires novo.status == Aberto
    ensures OpenRaffles(CloseOpen(ss, now) + [novo]) == [novo]
    ensures CurrentRaffle(CloseOpen(ss, now) + [novo]) == Some(novo)
  {
    var closed := CloseOpen(ss, now);
    Seqs.FilterNone(closed, (s: Sorteio) => s.status == Aberto);
    Seqs.FilterAppend(closed, [novo], (s: Sorteio) => s.status == Aberto);
    assert OpenRaffles([novo]) == [novo];
    Seqs.FindIsFirst(closed + [novo], (s: Sorteio) => s.status == Aberto, |closed|);
  }

  /**
   * `createRaffle`: a name that is blank after trimming changes nothing;
   * otherwise the open raffles are closed and the new one is appended last.
   * `newId` and `now` stand for `Date.now()`.
   */
  method CreateRaffle(store: LocalStorage, nome: string, videoLink: string, newId: string, now: int)
    modifies store
    ensures Trim(nome) == [] ==> store.sorteios == old(store.sorteios)
    ensures Trim(nome) != [] ==>
      store.sorteios == CloseOpen(old(store.sorteios), now) + [NewRaffle(newId, nome, videoLink, now)]
    ensures Trim(nome) != [] ==> OpenRaffles(store.sorteios) == [NewRaffle(newId, nome, videoLink, now)]
    ensures store.users == old(store.users) && store.comprovantes == old(store.comprovantes)
    ensures store.numerosRifa == old(store.numerosRifa)
    ensures store.cupons == old(store.cupons) && store.systemConfig == old(store.systemConfig)
  {
    if Trim(nome) == [] {
      return;
    }
    var updated := CloseOpen(store.sorteios, now);
    var novo := NewRaffle(newId, nome, videoLink, now);
    CreatedIsTheOnlyOpen(store.sorteios, now, novo);
    store.sorteios := updated + [novo];
  }

  // ---------------------------------------------------------------- drawing

  /** `text.split(',').map(n => n.trim())`. */
  function TrimAll(pieces: seq<string>): (r: seq<string>)
    ensures |r| == |pieces| && forall i :: 0 <= i < |r| ==> r[i] == Trim(pieces[i])
  {
    seq(|pieces|, i requires 0 <= i < |pieces| => Trim(pieces[i]))
  }

  /** A trimmed piece neither starts nor ends with whitespace. */
  predicate Trimmed(x: string)
  {
    x != [] ==> !IsSpace(x[0]) && !IsSpace(x[|x| - 1])
  }

  lemma TrimAllTrimmed(pieces: seq<string>)
    ensures forall x :: x in TrimAll(pieces) ==> Trimmed(x)
  {
  }

  predicate NonEmpty(n: string)
  {
    n != []
  }

  lemma KeptAreTrimmed(trimmed: seq<string>)
    requires forall x :: x in trimmed ==> Trimmed(x)
    ensures var w := Seqs.Filter(trimmed, NonEmpty);
      forall i :: 0 <= i < |w| ==> w[i] != [] && !IsSpace(w[i][0]) && !IsSpace(w[i][|w[i]| - 1])
  {
    var w := Seqs.Filter(trimmed, NonEmpty);
    forall i | 0 <= i < |w| ensures w[i] != [] && !IsSpace(w[i][0]) && !IsSpace(w[i][|w[i]| - 1]) {
      assert w[i] in w;
      assert Trimmed(w[i]) && NonEmpty(w[i]);
    }
  }

  /**
   * Manual mode: the comma-separated pieces, trimmed, without the empty ones,
   * in input order. They are not checked against the raffle's numbers.
   */
  function ManualWinners(text: string): (w: seq<string>)
    ensures |w| <= |Split(text, ',')|
    ensures forall i :: 0 <= i < |w| ==> w[i] != [] && !IsSpace(w[i][0]) && !IsSpace(w[i][|w[i]| - 1])
  {
    var trimmed := TrimAll(Split(text, ','));
    TrimAllTrimmed(Split(text, ','));
    KeptAreTrimmed(trimmed);
    Seqs.Filter(trimmed, NonEmpty)
  }

  /** A list typed as `a,b` gives the winners of `a` followed by those of `b`. */
  lemma ManualWinnersAppend(a: string, b: string)
    ensures ManualWinners(a + "," + b) == ManualWinners(a) + ManualWinners(b)
  {
    SplitAppend(a, b, ',');
    assert a + "," + b == a + [','] + b;
    var pa := Split(a, ',');
    var pb := Split(b, ',');
    assert TrimAll(pa + pb) == TrimAll(pa) + TrimAll(pb);
    Seqs.FilterAppend(TrimAll(pa), TrimAll(pb), NonEmpty);
  }

  /** One number, without commas or surrounding blanks, is the whole list. */
  lemma {:induction false} ManualWinnersSingle(n: string)
    requires n != [] && ',' !in n && !IsSpace(n[0]) && !IsSpace(n[|n| - 1])
    ensures ManualWinners(n) == [n]
  {
    SplitNoSeparator(n, ',');
    TrimNoSpace(n);
    TrimAllSingle(n);
    KeepNonEmptySingle(n);
  }

  lemma TrimAllSingle(n: string)
    requires Trim(n) == n
    ensures TrimAll([n]) == [n]
  {
  }

  lemma KeepNonEmptySingle(n: string)
    requires n != []
    ensures Seqs.Filter([n], NonEmpty) == [n]
  {
    assert [n][1..] == [];
  }

  /** The shuffled order of the raffle's records: a permutation of their positions. */
  predicate IsPermutation(perm: seq<nat>, n: nat)
  {
    |perm| == n && (forall i :: 0 <= i < n ==> perm[i] < n) &&
    (forall i, j :: 0 <= i < j < n ==> perm[i] != perm[j])
  }

  /**
   * Automatic mode: the numbers of the first `min(3, n)` records in the
   * shuffled order, which are distinct records of the raffle.
   */
  function AutoWinners(raffleNumbers: seq<NumeroRifa>, perm: seq<nat>): (w: seq<string>)
    requires IsPermutation(perm, |raffleNumbers|)
    ensures |w| == if |raffleNumbers| < 3 then |raffleNumbers| else 3
    ensures forall i :: 0 <= i < |w| ==> w[i] == raffleNumbers[perm[i]].numero_gerado
  {
    var k := if |raffleNumbers| < 3 then |raffleNumbers| else 3;
    seq(k, i requires 0 <= i < k => raffleNumbers[perm[i]].numero_gerado)
  }

  /** Every automatic winner is a number of the raffle, so a non-empty raffle has one. */
  lemma AutoWinnersDrawn(raffleNumbers: seq<NumeroRifa>, perm: seq<nat>)
    requires IsPermutation(perm, |raffleNumbers|)
    ensures forall x :: x in AutoWinners(raffleNumbers, perm) ==>
      exists r :: r in raffleNumbers && r.numero_gerado == x
    ensures raffleNumbers != [] ==> FirstWinner(raffleNumbers, AutoWinners(raffleNumbers, perm)).Some?
  {
    var w := AutoWinners(raffleNumbers, perm);
    forall x | x in w ensures exists r :: r in raffleNumbers && r.numero_gerado == x {
      var i :| 0 <= i < |w| && w[i] == x;
      assert raffleNumbers[perm[i]] in raffleNumbers;
    }
    if raffleNumbers != [] {
      var r := raffleNumbers[perm[0]];
      assert r in raffleNumbers && r.numero_gerado in w;
    }
  }

  /**
   * `generateFederalNumbers`: five simulated lottery numbers, the i-th from
   * the i-th draw.
   */
  method GenerateFederalNumbers(rand: nat -> real) returns (numbers: seq<string>)
    requires ValidSource(rand)
    ensures |numbers| == 5
    ensures forall i :: 0 <= i < 5 ==> numbers[i] == TicketString(rand(i))
    ensures forall i :: 0 <= i < 5 ==> FiveDigit(numbers[i]) && 10000 <= DigitsValue(numbers[i]) <= 99999
  {
    numbers := [];
    var i := 0;
    while i < 5
      invariant 0 <= i <= 5 && |numbers| == i
      invariant forall k :: 0 <= k < i ==> numbers[k] == TicketString(rand(k))
    {
      numbers := numbers + [TicketString(rand(i))];
      i := i + 1;
    }
  }

  /**
   * `ganhador_id`: the owner of the first record of the raffle whose number
   * is among the winners, if any.
   */
  function FirstWinner(raffleNumbers: seq<NumeroRifa>, winners: seq<string>): (r: Option<string>)
    ensures r.None? <==> forall n :: n in raffleNumbers ==> n.numero_gerado !in winners
    ensures r.Some? ==>
      exists k :: 0 <= k < |raffleNumbers| && raffleNumbers[k].numero_gerado in winners &&
        r.value == raffleNumbers[k].id_usuario &&
        forall j :: 0 <= j < k ==> raffleNumbers[j].numero_gerado !in winners
  {
    match Seqs.FindIndex(raffleNumbers, (n: NumeroRifa) => n.numero_gerado in winners)
    case None => None
    case Some(k) => Some(raffleNumbers[k].id_usuario)
  }

  /** `sorteios.map(s => s.id === id ? updated : s)`. */
  function ReplaceRaffle(ss: seq<Sorteio>, id: string, updated: Sorteio): (r: seq<Sorteio>)
    ensures |r| == |ss|
    ensures forall i :: 0 <= i < |ss| && ss[i].id != id ==> r[i] == ss[i]
    ensures forall i :: 0 <= i < |ss| && ss[i].id == id ==> r[i] == updated
  {
    seq(|ss|, i requires 0 <= i < |ss| => if ss[i].id == id then updated else ss[i])
  }

  /** Replacing raffles with a closed one never adds an open raffle. */
  lemma {:induction false} ClosingKeepsAtMostOneOpen(ss: seq<Sorteio>, id: string, updated: Sorteio)
    requires updated.status == Encerrado
    ensures |OpenRaffles(ReplaceRaffle(ss, id, updated))| <= |OpenRaffles(ss)|
  {
    if ss != [] {
      var r := ReplaceRaffle(ss, id, updated);
      ClosingKeepsAtMostOneOpen(ss[1..], id, updated);
      assert r[1..] == ReplaceRaffle(ss[1..], id, updated);
    }
  }

  /** How the winners are chosen. */
  datatype ResultType = Manual | Auto | Federal

  /** What finishing a raffle did. */
  datatype DrawOutcome =
    | NoNumbers              // "Este sorteio não possui números para sortear."
    | NoManualNumbers        // "Digite pelo menos um número vencedor."
    | Finished(winners: seq<string>)

  /**
   * `processRaffleResult`: with no numbers in the raffle, or an empty manual
   * list, nothing changes. Otherwise the winners are chosen by the mode and
   * only this raffle is replaced: closed at `now`, with the winners and the
   * owner of the first winning record. The raffle's status is not re-checked.
   */
  method ProcessRaffleResult(store: LocalStorage, raffle: Sorteio, mode: ResultType, manualNumbers: string,
                             perm: seq<nat>, rand: nat -> real, now: int)
    returns (outcome: DrawOutcome)
    requires ValidSource(rand)
    requires mode == Auto ==> IsPermutation(perm, |NumbersIn(store.numerosRifa, raffle.id)|)
    modifies store
    ensures var raffleNumbers := NumbersIn(old(store.numerosRifa), raffle.id);
      (raffleNumbers == [] ==> outcome == NoNumbers) &&
      (raffleNumbers != [] && mode == Manual && ManualWinners(manualNumbers) == [] ==> outcome == NoManualNumbers) &&
      (outcome.Finished? <==> raffleNumbers != [] && (mode == Manual ==> ManualWinners(manualNumbers) != [])) &&
      (!outcome.Finished? ==> store.sorteios == old(store.sorteios)) &&
      (outcome.Finished? ==>
        store.sorteios == ReplaceRaffle(old(store.sorteios), raffle.id,
          raffle.(status := Encerrado, data_fim := Some(now),
                  ganhador_id := FirstWinner(raffleNumbers, outcome.winners),
                  numeros_premiados := Some(outcome.winners))) &&
        (mode == Manual ==> outcome.winners == ManualWinners(manualNumbers)) &&
        (mode == Auto ==> outcome.winners == AutoWinners(raffleNumbers, perm)) &&
        (mode == Federal ==>
           |outcome.winners| == 5 && forall i :: 0 <= i < 5 ==> outcome.winners[i] == TicketString(rand(i))))
    ensures store.users == old(store.users) && store.comprovantes == old(store.comprovantes)
    ensures store.numerosRifa == old(store.numerosRifa)
    ensures store.cupons == old(store.cupons) && store.systemConfig == old(store.systemConfig)
  {
    var raffleNumbers := NumbersIn(store.numerosRifa, raffle.id);
    if raffleNumbers == [] {
      return NoNumbers;
    }
    var winningNumbers: seq<string> := [];
    if mode == Manual {
      winningNumbers := ManualWinners(manualNumbers);
      if winningNumbers == [] {
        return NoManualNumbers;
      }
    } else if mode == Auto {
      winningNumbers := AutoWinners(raffleNumbers, perm);
    } else {
      winningNumbers := GenerateFederalNumbers(rand);
    }
    var winnerId := FirstWinner(raffleNumbers, winningNumbers);
    var updatedSorteio := raffle.(status := Encerrado, data_fim := Some(now), ganhador_id := winnerId,
                                  numeros_premiados := Some(winningNumbers));
    store.sorteios := ReplaceRaffle(store.sorteios, raffle.id, updatedSorteio);
    outcome := Finished(winningNumbers);
  }

  /** The stored player for a typed link: none when the link is blank. */
  function StoredVideo(videoLink: string): (v: Option<string>)
    ensures v.None? <==> Trim(videoLink) == []
    ensures v.Some? ==> IframeHead <= v.value
  {
    var link := Trim(videoLink);
    if link != [] then Some(ConvertToIframe(link)) else None
  }

  /** `updateVideoLink`: only the raffle with this id changes; a blank link clears the video. */
  method UpdateVideoLink(store: LocalStorage, sorteio: Sorteio, videoLink: string)
    modifies store
    ensures store.sorteios == ReplaceRaffle(old(store.sorteios), sorteio.id, sorteio.(video_link := StoredVideo(videoLink)))
    ensures forall i :: 0 <= i < |store.sorteios| && store.sorteios[i].id == sorteio.id ==>
      store.sorteios[i].video_link == StoredVideo(videoLink)
    ensures store.users == old(store.users) && store.comprovantes == old(store.comprovantes)
    ensures store.numerosRifa == old(store.numerosRifa)
    ensures store.cupons == old(store.cupons) && store.systemConfig == old(store.systemConfig)
  {
    store.sorteios := ReplaceRaffle(store.sorteios, sorteio.id, sorteio.(video_link := StoredVideo(videoLink)));
  }

  // ---------------------------------------------------------------- figures

  datatype RaffleStats = RaffleStats(totalNumbers: nat, participants: nat)

  /** `getRaffleStats`: the raffle's numbers, and how many distinct users own them. */
  function GetRaffleStats(ns: seq<NumeroRifa>, raffleId: string): (st: RaffleStats)
    ensures st.totalNumbers == |NumbersIn(ns, raffleId)|
    ensures st.participants == |Seqs.Image(NumbersIn(ns, raffleId), (n: NumeroRifa) => n.id_usuario)|
    ensures st.participants <= st.totalNumbers
    ensures st.participants == 0 <==> st.totalNumbers == 0
  {
    var raffleNumbers := NumbersIn(ns, raffleId);
    var owner := (n: NumeroRifa) => n.id_usuario;
    Seqs.ImageSizeAtMost(raffleNumbers, owner);
    RaffleStats(|raffleNumbers|, |Seqs.Image(raffleNumbers, owner)|)
  }
}
