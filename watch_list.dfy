/** The watch-list store of App.js: the ordered list of movie entries (`filmes`),
    the text typed into the input field (`filme`), the four handlers that
    change the list, the watched count shown above the list, and the snapshot
    each handler hands to persistence. */
module WatchList {
  import opened JsString

  datatype Option<T> = None | Some(value: T)

  /** One movie: `id` is the creation timestamp as text, `nome` the title,
      `assistido` whether it has been watched (App.js:46-50). */
  datatype Entry = Entry(id: string, nome: string, assistido: bool)

  /** The list after `marcarComoAssistido(id)`: the `map` of App.js:59-61. Every
      entry whose id is `id` has its flag negated, and every other entry is kept
      as it is, in the same place. Ids need not be unique, so every match flips. */
  function Toggled(l: seq<Entry>, id: string): (r: seq<Entry>)
    ensures |r| == |l|
    ensures forall i :: 0 <= i < |l| && l[i].id != id ==> r[i] == l[i]
    ensures forall i :: 0 <= i < |l| && l[i].id == id ==>
              r[i] == Entry(l[i].id, l[i].nome, !l[i].assistido)
  {
    if l == [] then []
    else
      var e := l[0];
      [if e.id == id then e.(assistido := !e.assistido) else e] + Toggled(l[1..], id)
  }

  /** The list after `removerFilme(id)`: the `filter` of App.js:67. An entry is
      kept exactly when its id is not `id` (WithoutMultiset, WithoutMembers),
      in the same relative order (WithoutAppend). */
  function Without(l: seq<Entry>, id: string): (r: seq<Entry>)
    ensures |r| <= |l|
    ensures forall i :: 0 <= i < |r| ==> r[i].id != id
  {
    if l == [] then []
    else (if l[0].id != id then [l[0]] else []) + Without(l[1..], id)
  }

  /** The entries that `removerFilme(id)` drops: the complement of Without. */
  function Matching(l: seq<Entry>, id: string): (r: seq<Entry>)
    ensures |r| <= |l|
    ensures forall i :: 0 <= i < |r| ==> r[i].id == id
  {
    if l == [] then []
    else (if l[0].id == id then [l[0]] else []) + Matching(l[1..], id)
  }

  /** The watched count displayed at App.js:145, `filmes.filter(f => f.assistido).length`,
      counted entry by entry. It never exceeds the length of the list;
      WatchedCountExtremes says when it is 0 and when it is the length. */
  function WatchedCount(l: seq<Entry>): (n: nat)
    ensures n <= |l|
  {
    if l == [] then 0 else (if l[0].assistido then 1 else 0) + WatchedCount(l[1..])
  }

  /** The count is 0 exactly when nothing is watched and equals the length
      exactly when everything is. */
  lemma {:induction false} WatchedCountExtremes(l: seq<Entry>)
    ensures WatchedCount(l) == 0 <==> forall i :: 0 <= i < |l| ==> !l[i].assistido
    ensures WatchedCount(l) == |l| <==> forall i :: 0 <= i < |l| ==> l[i].assistido
  {
    if l != [] {
      WatchedCountExtremes(l[1..]);
      assert forall i :: 1 <= i < |l| ==> l[1..][i - 1] == l[i];
    }
  }

  /** A name `adicionarFilme` can produce: non-empty, neither starting nor ending
      with white space. By TrimmedNameIff these are exactly the non-empty
      strings that `trim` leaves as they are. */
  predicate IsTrimmedName(s: string) {
    s != [] && !IsWhiteSpace(s[0]) && !IsWhiteSpace(s[|s| - 1])
  }

  /** Every name in the list is one `adicionarFilme` can produce. */
  ghost predicate NamesTrimmed(l: seq<Entry>) {
    forall i :: 0 <= i < |l| ==> IsTrimmedName(l[i].nome)
  }

  lemma TrimmedNameIff(s: string)
    ensures IsTrimmedName(s) <==> s != [] && Trim(s) == s
  {
    if IsTrimmedName(s) {
      var e: string := [];
      assert e + s + e == s;
      TrimOfPadded(e, s, e);
    }
  }

  /** Appending an entry with a trimmed name keeps every name trimmed. */
  lemma AppendKeepsNames(l: seq<Entry>, e: Entry)
    requires NamesTrimmed(l) && IsTrimmedName(e.nome)
    ensures NamesTrimmed(l + [e])
  {
    forall i | 0 <= i < |l| + 1 ensures IsTrimmedName((l + [e])[i].nome) {
      if i < |l| { assert (l + [e])[i] == l[i]; }
    }
  }

  // ---------------------------------------------------------------------------
  // Toggling

  /** Marking an id twice gives back the original list. */
  lemma {:induction false} ToggledTwice(l: seq<Entry>, id: string)
    ensures Toggled(Toggled(l, id), id) == l
  {
    var r := Toggled(Toggled(l, id), id);
    assert |r| == |l|;
    forall i | 0 <= i < |l| ensures r[i] == l[i] {
      if l[i].id == id {
        assert Toggled(l, id)[i] == Entry(l[i].id, l[i].nome, !l[i].assistido);
      }
    }
  }

  /** Marking changes the list if and only if some entry has that id. */
  lemma ToggledUnchangedIff(l: seq<Entry>, id: string)
    ensures Toggled(l, id) == l <==> forall i :: 0 <= i < |l| ==> l[i].id != id
  {
    if forall i :: 0 <= i < |l| ==> l[i].id != id {
      assert forall i :: 0 <= i < |l| ==> Toggled(l, id)[i] == l[i];
    } else {
      var i :| 0 <= i < |l| && l[i].id == id;
      assert Toggled(l, id)[i].assistido != l[i].assistido;
    }
  }

  /** `map` works entry by entry, so it distributes over concatenation. */
  lemma {:induction false} ToggledAppend(a: seq<Entry>, b: seq<Entry>, id: string)
    ensures Toggled(a + b, id) == Toggled(a, id) + Toggled(b, id)
  {
    var r := Toggled(a + b, id);
    var s := Toggled(a, id) + Toggled(b, id);
    assert |r| == |s|;
    forall i | 0 <= i < |r| ensures r[i] == s[i] {
      if i < |a| {
        assert (a + b)[i] == a[i];
      } else {
        assert (a + b)[i] == b[i - |a|];
      }
    }
  }

  /** Names, ids and length survive marking, so trimmed names stay trimmed. */
  lemma ToggledKeepsNames(l: seq<Entry>, id: string)
    requires NamesTrimmed(l)
    ensures NamesTrimmed(Toggled(l, id))
  {
    var r := Toggled(l, id);
    forall i | 0 <= i < |r| ensures r[i].nome == l[i].nome {
    }
  }

  // ---------------------------------------------------------------------------
  // Removing

  /** `filter` keeps exactly the entries whose id differs, each as often as
      it occurred. */
  lemma {:induction false} WithoutMultiset(l: seq<Entry>, id: string)
    ensures forall e :: multiset(Without(l, id))[e] == if e.id == id then 0 else multiset(l)[e]
  {
    if l != [] {
      assert l == [l[0]] + l[1..];
      WithoutMultiset(l[1..], id);
    }
  }

  /** An entry is left after removal if and only if it was there and has another id. */
  lemma WithoutMembers(l: seq<Entry>, id: string, e: Entry)
    ensures e in Without(l, id) <==> e in l && e.id != id
  {
    WithoutMultiset(l, id);
    assert e in Without(l, id) <==> multiset(Without(l, id))[e] > 0;
    assert e in l <==> multiset(l)[e] > 0;
  }

  /** Removing an id changes the list if and only if some entry has that id. */
  lemma {:induction false} WithoutUnchangedIff(l: seq<Entry>, id: string)
    ensures Without(l, id) == l <==> forall i :: 0 <= i < |l| ==> l[i].id != id
  {
    if forall i :: 0 <= i < |l| ==> l[i].id != id {
      if l != [] {
        WithoutUnchangedIff(l[1..], id);
        assert l == [l[0]] + l[1..];
      }
    } else {
      var i :| 0 <= i < |l| && l[i].id == id;
      WithoutMembers(l, id, l[i]);
    }
  }

  /** The length drops by exactly the number of entries with that id; with a
      unique id that is one, with an absent id it is zero. */
  lemma {:induction false} WithoutLength(l: seq<Entry>, id: string)
    ensures |Without(l, id)| + |Matching(l, id)| == |l|
    ensures |Matching(l, id)| == 0 <==> forall i :: 0 <= i < |l| ==> l[i].id != id
  {
    if l != [] {
      WithoutLength(l[1..], id);
      assert forall i :: 1 <= i < |l| ==> l[1..][i - 1] == l[i];
      if l[0].id == id {
        assert Matching(l, id)[0].id == id;
      }
    }
  }

  /** `filter` keeps the relative order: removing from a concatenation is
      concatenating the removals. */
  lemma {:induction false} WithoutAppend(a: seq<Entry>, b: seq<Entry>, id: string)
    ensures Without(a + b, id) == Without(a, id) + Without(b, id)
  {
    if a == [] {
      assert a + b == b;
    } else {
      assert (a + b)[0] == a[0];
      assert (a + b)[1..] == a[1..] + b;
      WithoutAppend(a[1..], b, id);
    }
  }

  /** Removing after marking the same id is just removing. */
  lemma {:induction false} WithoutToggled(l: seq<Entry>, id: string)
    ensures Without(Toggled(l, id), id) == Without(l, id)
  {
    if l != [] {
      var t := Toggled(l, id);
      assert t[1..] == Toggled(l[1..], id);
      WithoutToggled(l[1..], id);
    }
  }

  /** Removing twice is removing once. */
  lemma WithoutIdempotent(l: seq<Entry>, id: string)
    ensures Without(Without(l, id), id) == Without(l, id)
  {
    WithoutUnchangedIff(Without(l, id), id);
  }

  /** Remaining entries are entries of the old list, so trimmed names stay trimmed. */
  lemma WithoutKeepsNames(l: seq<Entry>, id: string)
    requires NamesTrimmed(l)
    ensures NamesTrimmed(Without(l, id))
  {
    var r := Without(l, id);
    forall i | 0 <= i < |r| ensures IsTrimmedName(r[i].nome) {
      assert r[i] in r;
      WithoutMembers(l, id, r[i]);
    }
  }

  // ---------------------------------------------------------------------------
  // The watched count

  /** Appending an entry adds one to the count exactly when it is watched; an
      entry fresh from `adicionarFilme` is not, so adding keeps the count. */
  lemma {:induction false} WatchedCountAppend(l: seq<Entry>, e: Entry)
    ensures WatchedCount(l + [e]) == WatchedCount(l) + if e.assistido then 1 else 0
  {
    if l == [] {
      assert l + [e] == [e];
    } else {
      assert (l + [e])[1..] == l[1..] + [e];
      WatchedCountAppend(l[1..], e);
    }
  }

  /** The watched entries split into those with and without a given id. */
  lemma {:induction false} WatchedCountSplit(l: seq<Entry>, id: string)
    ensures WatchedCount(l) == WatchedCount(Without(l, id)) + WatchedCount(Matching(l, id))
  {
    if l != [] {
      WatchedCountSplit(l[1..], id);
      var w, m := Without(l[1..], id), Matching(l[1..], id);
      if l[0].id == id {
        assert Without(l, id) == w;
        assert Matching(l, id) == [l[0]] + m && ([l[0]] + m)[1..] == m;
      } else {
        assert Matching(l, id) == m;
        assert Without(l, id) == [l[0]] + w && ([l[0]] + w)[1..] == w;
      }
    }
  }

  /** After marking, the matching entries that were unwatched are the watched
      ones: the count changes by the number of matches minus twice the number
      of watched matches. */
  lemma {:induction false} WatchedCountToggled(l: seq<Entry>, id: string)
    ensures WatchedCount(Toggled(l, id))
            == WatchedCount(Without(l, id)) + |Matching(l, id)| - WatchedCount(Matching(l, id))
  {
    if l != [] {
      WatchedCountToggled(l[1..], id);
      var w, m := Without(l[1..], id), Matching(l[1..], id);
      assert Toggled(l, id)[1..] == Toggled(l[1..], id);
      if l[0].id == id {
        assert Without(l, id) == w;
        assert Matching(l, id) == [l[0]] + m && ([l[0]] + m)[1..] == m;
      } else {
        assert Matching(l, id) == m;
        assert Without(l, id) == [l[0]] + w && ([l[0]] + w)[1..] == w;
      }
    }
  }

  // ---------------------------------------------------------------------------
  // The component state

  /** The state of the `App` component: `filme` and `filmes` are its two
      `useState` slots (App.js:17-18); `saved` is the last list handed to
      `salvarFilmes` in this session (None before the first), standing for the
      value written under the storage key. */
  class Store {
    var filmes: seq<Entry>
    var filme: string
    ghost var saved: Option<seq<Entry>>

    /** The snapshot last handed to persistence is the list on screen. */
    ghost predicate Synced()
      reads this
    {
      saved == Some(filmes)
    }

    /** Both state slots start empty (App.js:17-18); nothing has been saved. */
    constructor ()
      ensures filmes == [] && filme == [] && saved == None
    {
      filmes := [];
      filme := [];
      saved := None;
    }

    /** `onChangeText={setFilme}` (App.js:127): the input field's text. */
    method SetFilme(text: string)
      modifies this`filme
      ensures filme == text
    {
      filme := text;
    }

    /** `salvarFilmes` (App.js:35-41): hands the whole list to storage. The write
        and its failure path are not modelled; the snapshot is what is handed. */
    method SalvarFilmes(novosFilmes: seq<Entry>)
      modifies this`saved
      ensures saved == Some(novosFilmes)
    {
      saved := Some(novosFilmes);
    }

    /** `carregarFilmes` (App.js:24-33). `filmesSalvos` is what the storage read
        gave (None when the key is absent or the read failed); `parse` stands for
        `JSON.parse` (None when it throws). The list is replaced only when the
        stored text is non-empty and decodes; otherwise it is left as it is. */
    method CarregarFilmes(filmesSalvos: Option<string>, parse: string -> Option<seq<Entry>>)
      modifies this`filmes
      ensures filmesSalvos.Some? && filmesSalvos.value != [] && parse(filmesSalvos.value).Some?
              ==> filmes == parse(filmesSalvos.value).value
      ensures !(filmesSalvos.Some? && filmesSalvos.value != [] && parse(filmesSalvos.value).Some?)
              ==> filmes == old(filmes)
    {
      if filmesSalvos.Some? && filmesSalvos.value != [] {
        var decoded := parse(filmesSalvos.value);
        if decoded.Some? {
          filmes := decoded.value;
        }
      }
    }

    /** `adicionarFilme` (App.js:43-56). A blank input (empty once trimmed) changes
        nothing: no entry, no save, the input is kept. Otherwise one unwatched entry
        named by the trimmed input is appended after the unchanged old entries,
        that list is saved, and the input is cleared. `id` stands for
        `Date.now().toString()` and may equal an id already in the list. */
    method AdicionarFilme(id: string)
      modifies this
      ensures Trim(old(filme)) == [] ==>
                filmes == old(filmes) && filme == old(filme) && saved == old(saved)
      ensures Trim(old(filme)) != [] ==>
                && filmes == old(filmes) + [Entry(id, Trim(old(filme)), false)]
                && filme == []
                && Synced()
      ensures NamesTrimmed(old(filmes)) ==> NamesTrimmed(filmes)
      ensures WatchedCount(filmes) == WatchedCount(old(filmes))
    {
      var nome := Trim(filme);
      if nome == [] {
        return;
      }
      var novoFilme := Entry(id, nome, false);
      var novaLista := filmes + [novoFilme];
      if NamesTrimmed(filmes) {
        AppendKeepsNames(filmes, novoFilme);
      }
      WatchedCountAppend(filmes, novoFilme);
      filmes := novaLista;
      SalvarFilmes(novaLista);
      filme := [];
    }

    /** `marcarComoAssistido` (App.js:58-64): every entry with that id has its flag
        flipped, the rest of the list is kept, and the new list is saved. */
    method MarcarComoAssistido(id: string)
      modifies this`filmes, this`saved
      ensures filmes == Toggled(old(filmes), id)
      ensures Synced()
      ensures NamesTrimmed(old(filmes)) ==> NamesTrimmed(filmes)
    {
      if NamesTrimmed(filmes) {
        ToggledKeepsNames(filmes, id);
      }
      var novaLista := Toggled(filmes, id);
      filmes := novaLista;
      SalvarFilmes(novaLista);
    }

    /** `removerFilme` (App.js:66-70): every entry with that id is dropped, the
        others keep their order, and the new list is saved. */
    method RemoverFilme(id: string)
      modifies this`filmes, this`saved
      ensures filmes == Without(old(filmes), id)
      ensures Synced()
      ensures NamesTrimmed(old(filmes)) ==> NamesTrimmed(filmes)
    {
      if NamesTrimmed(filmes) {
        WithoutKeepsNames(filmes, id);
      }
      var novaLista := Without(filmes, id);
      filmes := novaLista;
      SalvarFilmes(novaLista);
    }

    /** `limparTudo` (App.js:72-75): the list becomes empty and the empty list
        is saved, whatever was there before. */
    method LimparTudo()
      modifies this`filmes, this`saved
      ensures filmes == [] && Synced()
    {
      filmes := [];
      SalvarFilmes([]);
    }
  }
}
