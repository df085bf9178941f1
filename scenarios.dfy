/** Client walks through the store, showing what callers can conclude from the
    handlers' contracts alone. Titles are parameters: any non-empty title that
    neither starts nor ends with white space will do. */
module Scenarios {
  import opened JsString
  import opened WatchList

  /** A blank input is refused: no entry, no save, and the text stays in the field. */
  method BlankInput(id: string, blank: string)
    requires AllWhiteSpace(blank)
  {
    var s := new Store();
    s.SetFilme(blank);
    s.AdicionarFilme(id);
    assert s.filmes == [] && s.filme == blank && s.saved == None;
  }

  /** A title typed with white space around it is stored trimmed. */
  method PaddedInput(id: string, pad: string, title: string)
    requires AllWhiteSpace(pad) && IsTrimmedName(title)
  {
    TrimOfPadded(pad, title, pad);
    var s := new Store();
    s.SetFilme(pad + title + pad);
    s.AdicionarFilme(id);
    assert s.filmes == [Entry(id, title, false)] && s.filme == [];
  }

  /** Two titles added with distinct ids, the second marked, the first removed,
      then everything cleared. */
  method DistinctIds(inception: string, coco: string, title1: string, title2: string)
    requires inception != coco
    requires IsTrimmedName(title1) && IsTrimmedName(title2)
  {
    TrimmedNameIff(title1);
    TrimmedNameIff(title2);
    var a, b := Entry(inception, title1, false), Entry(coco, title2, false);
    var s := new Store();
    s.SetFilme(title1);
    s.AdicionarFilme(inception);
    assert s.filmes == [a];
    s.SetFilme(title2);
    s.AdicionarFilme(coco);
    assert s.filmes == [a, b];

    s.MarcarComoAssistido(coco);
    var b' := Entry(coco, title2, true);
    assert s.filmes == [a, b'];
    assert WatchedCount(s.filmes) == 1 && |s.filmes| == 2;

    s.RemoverFilme(inception);
    assert s.filmes == [b'] && s.saved == Some([b']);

    s.LimparTudo();
    assert s.filmes == [] && s.saved == Some([]);
  }

  /** Two adds within one clock tick get the same id; marking or removing that
      id then affects both entries. */
  method SameTick(tick: string, title1: string, title2: string)
    requires IsTrimmedName(title1) && IsTrimmedName(title2)
  {
    TrimmedNameIff(title1);
    TrimmedNameIff(title2);
    var s := new Store();
    s.SetFilme(title1);
    s.AdicionarFilme(tick);
    assert s.filmes == [Entry(tick, title1, false)];
    s.SetFilme(title2);
    s.AdicionarFilme(tick);
    assert s.filmes == [Entry(tick, title1, false), Entry(tick, title2, false)];

    s.MarcarComoAssistido(tick);
    assert s.filmes == [Entry(tick, title1, true), Entry(tick, title2, true)];
    assert WatchedCount(s.filmes) == 2;

    s.RemoverFilme(tick);
    assert s.filmes == [];
  }
}
