/** The inspection form screen: it turns the fetched form schema into
    sections of items, records answers and photos, and saves a filled form
    on the device as a draft once every required question is answered. */
module Formulario {
  import opened Common
  import opened Records
  import opened Forms
  import Sync

  /** A question as the backend returns it. A null `required` is read as false. */
  datatype SchemaQuestion = SchemaQuestion(
    id: int,
    qtype: string,
    text: string,
    required: bool,
    options: Option<seq<string>>,
    showAdditionalObservations: bool,
    additionalObservations: Option<string>)

  datatype SchemaSection = SchemaSection(id: int, title: string, questions: seq<SchemaQuestion>)

  // ---------------------------------------------------------------- ids

  function DigitChar(d: nat): (c: char)
    requires d < 10
  {
    ('0' as int + d) as char
  }

  /** Decimal rendering of a natural number. */
  function NatToString(n: nat): (s: string)
    ensures |s| >= 1
    ensures n >= 10 ==> |s| >= 2
    ensures forall i :: 0 <= i < |s| ==> '0' <= s[i] <= '9'
    decreases n
  {
    if n < 10 then [DigitChar(n)] else NatToString(n / 10) + [DigitChar(n % 10)]
  }

  /** `n.toString()` for an integer id. */
  function IntToString(n: int): (s: string)
    ensures |s| >= 1
    ensures s[0] == '-' <==> n < 0
  {
    if n < 0 then "-" + NatToString(-n) else NatToString(n)
  }

  lemma {:induction false} NatToStringInjective(a: nat, b: nat)
    ensures NatToString(a) == NatToString(b) ==> a == b
    decreases a
  {
    var sa, sb := NatToString(a), NatToString(b);
    if sa == sb && a >= 10 && b >= 10 {
      assert sa[..|sa| - 1] == NatToString(a / 10);
      assert sb[..|sb| - 1] == NatToString(b / 10);
      NatToStringInjective(a / 10, b / 10);
      assert sa[|sa| - 1] == DigitChar(a % 10) && sb[|sb| - 1] == DigitChar(b % 10);
    }
  }

  /** Different numeric ids give different string ids. */
  lemma IntToStringInjective(a: int, b: int)
    ensures IntToString(a) == IntToString(b) ==> a == b
  {
    if IntToString(a) == IntToString(b) {
      if a < 0 && b < 0 {
        assert IntToString(a)[1..] == NatToString(-a);
        assert IntToString(b)[1..] == NatToString(-b);
        NatToStringInjective(-a, -b);
      } else if a >= 0 && b >= 0 {
        NatToStringInjective(a, b);
      }
    }
  }

  // ---------------------------------------------------------------- schema mapping

  /** One question as a form item: it accepts attachments, a missing option
      list becomes the empty list, and the other fields are copied. */
  function FormatQuestion(q: SchemaQuestion): (item: FormItem)
    ensures item.permiteAnexo
    ensures item.id == IntToString(q.id) && item.obrigatorio == q.required
    ensures q.options.None? ==> item.opcoes == []
    ensures q.options.Some? ==> item.opcoes == q.options.value
  {
    FormItem(
      IntToString(q.id), q.qtype, q.text, q.required,
      match q.options case Some(o) => o case None => [],
      true, q.showAdditionalObservations, q.additionalObservations)
  }

  /** One section: its questions become its items, one for one, in order. */
  function FormatSection(s: SchemaSection): (r: FormSection)
    ensures r.id == IntToString(s.id) && r.categoria == s.title
    ensures |r.items| == |s.questions|
    ensures forall j :: 0 <= j < |s.questions| ==> r.items[j] == FormatQuestion(s.questions[j])
  {
    FormSection(IntToString(s.id), s.title,
      seq(|s.questions|, j requires 0 <= j < |s.questions| => FormatQuestion(s.questions[j])))
  }

  /** The `questoesFormatadas` built from a fetched form: one section per
      section and one item per question, in order; every item accepts
      attachments, a missing option list becomes the empty list, and the
      remaining fields are copied. */
  function FormatSections(sections: seq<SchemaSection>): (r: seq<FormSection>)
    ensures |r| == |sections|
    ensures forall i :: 0 <= i < |r| ==>
      r[i].id == IntToString(sections[i].id) && r[i].categoria == sections[i].title &&
      |r[i].items| == |sections[i].questions|
    ensures forall i, j :: 0 <= i < |r| && 0 <= j < |r[i].items| ==>
      var item, q := r[i].items[j], sections[i].questions[j];
      item.permiteAnexo &&
      item.id == IntToString(q.id) && item.tipo == q.qtype && item.labelText == q.text &&
      item.obrigatorio == q.required &&
      (q.options.None? ==> item.opcoes == []) && (q.options.Some? ==> item.opcoes == q.options.value) &&
      item.showObservations == q.showAdditionalObservations &&
      item.observationsLabel == q.additionalObservations
  {
    seq(|sections|, i requires 0 <= i < |sections| => FormatSection(sections[i]))
  }

  /** Two items of the formatted form share an id only if their questions do. */
  lemma FormattedIdsDistinct(sections: seq<SchemaSection>, i: int, j: int, i': int, j': int)
    requires 0 <= i < |sections| && 0 <= j < |sections[i].questions|
    requires 0 <= i' < |sections| && 0 <= j' < |sections[i'].questions|
    requires sections[i].questions[j].id != sections[i'].questions[j'].id
    ensures FormatSections(sections)[i].items[j].id != FormatSections(sections)[i'].items[j'].id
  {
    IntToStringInjective(sections[i].questions[j].id, sections[i'].questions[j'].id);
  }

  // ---------------------------------------------------------------- validation

  /** `respostas[id]` is truthy: present and not the empty string. A photo-path
      list is an array, which JavaScript treats as truthy even when empty. */
  predicate Filled(respostas: map<string, Answer>, id: string): (b: bool)
    ensures b ==> id in respostas
    ensures id in respostas && respostas[id].Paths? ==> b
    ensures id in respostas && respostas[id].Text? ==> (b <==> respostas[id].text != [])
  {
    id in respostas && respostas[id] != Text("")
  }

  ghost predicate AllFilled(required: seq<FormItem>, respostas: map<string, Answer>)
  {
    forall k :: 0 <= k < |required| ==> Filled(respostas, required[k].id)
  }

  /** `q` is the first of the required items whose answer is missing. */
  ghost predicate IsFirstMissing(required: seq<FormItem>, respostas: map<string, Answer>, q: FormItem)
  {
    exists k :: 0 <= k < |required| && required[k] == q && !Filled(respostas, q.id) &&
      forall j :: 0 <= j < k ==> Filled(respostas, required[j].id)
  }

  /** The required-question check of `salvarDados`: the loop over
      `questoesObrigatorias`, stopping at the first unanswered one. */
  method FirstMissing(questoesObrigatorias: seq<FormItem>, respostas: map<string, Answer>) returns (missing: Option<FormItem>)
    ensures missing.None? <==> AllFilled(questoesObrigatorias, respostas)
    ensures missing.Some? ==> IsFirstMissing(questoesObrigatorias, respostas, missing.value)
  {
    var k := 0;
    while k < |questoesObrigatorias|
      invariant 0 <= k <= |questoesObrigatorias|
      invariant forall j :: 0 <= j < k ==> Filled(respostas, questoesObrigatorias[j].id)
    {
      if !Filled(respostas, questoesObrigatorias[k].id) {
        assert IsFirstMissing(questoesObrigatorias, respostas, questoesObrigatorias[k]);
        return Some(questoesObrigatorias[k]);
      }
      k := k + 1;
    }
    return None;
  }

  /** Answering a question with a non-empty value settles it and no other. */
  lemma AnsweringFills(respostas: map<string, Answer>, id: string, valor: Answer, other: string)
    ensures Filled(AtualizarResposta(respostas, id, valor), other) ==
      if other == id then valor != Text("") else Filled(respostas, other)
  {
  }

  // ---------------------------------------------------------------- drafts

  /** The record `salvarDados` builds; `stamp` and `createdAt` are the two
      ISO timestamps it reads from the clock. */
  function NewDraft(stamp: string, formId: string, respostas: map<string, Answer>,
                    fotos: map<string, seq<Photo>>, createdAt: string, formTitle: string): (r: Record)
    ensures r.status == Draft
    ensures r.id == "offline_" + stamp
    ensures r.formId == formId && r.answers == respostas && r.photos == fotos
    ensures r.createdAt == createdAt && r.formTitle == formTitle
  {
    Record("offline_" + stamp, formId, respostas, fotos, Draft, createdAt, formTitle)
  }

  /** A draft appended to the stored list joins the end of the pending list. */
  lemma SavedDraftIsPending(stored: seq<Record>, stamp: string, formId: string, respostas: map<string, Answer>,
                            fotos: map<string, seq<Photo>>, createdAt: string, formTitle: string)
    ensures var draft := NewDraft(stamp, formId, respostas, fotos, createdAt, formTitle);
      Sync.FilterPending(stored + [draft]) == Sync.FilterPending(stored) + [draft]
  {
    var draft := NewDraft(stamp, formId, respostas, fotos, createdAt, formTitle);
    FilterConcat(stored, [draft], Sync.IsDraft);
    assert [draft][1..] == [];
  }

  // ---------------------------------------------------------------- photos

  function PhotosKey(questaoId: string): string { questaoId + "_photos" }

  function PathsOf(photos: seq<Photo>): seq<string>
  {
    seq(|photos|, i requires 0 <= i < |photos| => photos[i].path)
  }

  /** The answer under `<questaoId>_photos` lists the paths of that question's photos, in order. */
  predicate PhotosMirrored(fotos: map<string, seq<Photo>>, respostas: map<string, Answer>, questaoId: string)
  {
    questaoId in fotos && PhotosKey(questaoId) in respostas &&
    respostas[PhotosKey(questaoId)] == Paths(PathsOf(fotos[questaoId]))
  }

  lemma PhotosKeyInjective(a: string, b: string)
    ensures PhotosKey(a) == PhotosKey(b) ==> a == b
  {
    if PhotosKey(a) == PhotosKey(b) {
      assert |a| == |b|;
      assert a == PhotosKey(a)[..|a|];
      assert b == PhotosKey(b)[..|b|];
    }
  }

  datatype PhotoState = PhotoState(fotos: map<string, seq<Photo>>, respostas: map<string, Answer>)

  /** `newFotos` and `newRespostas` of `adicionarFoto`: the uploaded photo goes
      at the end of its question's list (created if absent) and the question's
      `_photos` answer is rewritten from that list. */
  function AdicionarFoto(fotos: map<string, seq<Photo>>, respostas: map<string, Answer>,
                         questaoId: string, photo: Photo): (r: PhotoState)
    ensures r.fotos.Keys == fotos.Keys + {questaoId}
    ensures r.fotos[questaoId] == (if questaoId in fotos then fotos[questaoId] else []) + [photo]
    ensures forall q :: q in fotos && q != questaoId ==> r.fotos[q] == fotos[q]
    ensures r.respostas.Keys == respostas.Keys + {PhotosKey(questaoId)}
    ensures forall k :: k in respostas && k != PhotosKey(questaoId) ==> r.respostas[k] == respostas[k]
    ensures PhotosMirrored(r.fotos, r.respostas, questaoId)
  {
    var newFotos := fotos[questaoId := (if questaoId in fotos then fotos[questaoId] else []) + [photo]];
    var newRespostas := respostas[PhotosKey(questaoId) := Paths(PathsOf(newFotos[questaoId]))];
    PhotoState(newFotos, newRespostas)
  }

  /** Adding a photo keeps every question's `_photos` answer in step with its list. */
  lemma AdicionarFotoKeepsMirrors(fotos: map<string, seq<Photo>>, respostas: map<string, Answer>,
                                  questaoId: string, photo: Photo, q: string)
    requires PhotosMirrored(fotos, respostas, q)
    ensures PhotosMirrored(AdicionarFoto(fotos, respostas, questaoId, photo).fotos,
                           AdicionarFoto(fotos, respostas, questaoId, photo).respostas, q)
  {
    PhotosKeyInjective(q, questaoId);
  }

  // ---------------------------------------------------------------- the screen

  /** What `salvarDados` ends with. */
  datatype SaveOutcome = Rejected(missing: FormItem) | Saved(record: Record)

  class FormularioScreen {
    const formId: string
    const formTitle: string
    const store: Storage
    var questoes: seq<FormSection>
    var respostas: map<string, Answer>
    var fotos: map<string, seq<Photo>>

    constructor (formId: string, formTitle: string, store: Storage)
      ensures this.formId == formId && this.formTitle == formTitle && this.store == store
      ensures questoes == [] && respostas == map[] && fotos == map[]
    {
      this.formId := formId;
      this.formTitle := formTitle;
      this.store := store;
      questoes := [];
      respostas := map[];
      fotos := map[];
    }

    /** `buscarFormulario`, run only when `formId` is set: on a fetch error the form stays as it was. */
    method BuscarFormulario(fetched: Result<seq<SchemaSection>, string>)
      modifies this
      ensures questoes == if formId != "" && fetched.Success? then FormatSections(fetched.value) else old(questoes)
      ensures respostas == old(respostas) && fotos == old(fotos)
    {
      if formId != "" {
        match fetched
        case Success(sections) => questoes := FormatSections(sections);
        case Failure(_) =>
      }
    }

    /** `atualizarResposta(id, valor)`. */
    method AtualizarRespostaState(id: string, valor: string)
      modifies this
      ensures respostas == AtualizarResposta(old(respostas), id, Text(valor))
      ensures questoes == old(questoes) && fotos == old(fotos)
    {
      respostas := AtualizarResposta(respostas, id, Text(valor));
    }

    /** `adicionarFoto(questaoId)`. `upload` is the uploaded photo, or None when the
        camera permission was refused, the picture was cancelled or the upload failed. */
    method AdicionarFotoState(questaoId: string, upload: Option<Photo>)
      modifies this
      ensures upload.None? ==> fotos == old(fotos) && respostas == old(respostas)
      ensures upload.Some? ==>
        PhotoState(fotos, respostas) == AdicionarFoto(old(fotos), old(respostas), questaoId, upload.value)
      ensures questoes == old(questoes)
    {
      if upload.Some? {
        var next := AdicionarFoto(fotos, respostas, questaoId, upload.value);
        fotos := next.fotos;
        respostas := next.respostas;
      }
    }

    /** `salvarDados`: refuse while a required question is unanswered, naming the
        first one and writing nothing; otherwise append a new draft to the stored list. */
    method SalvarDados(stamp: string, createdAt: string) returns (outcome: SaveOutcome)
      modifies store
      ensures outcome.Rejected? <==> !AllFilled(RequiredItems(questoes), respostas)
      ensures outcome.Rejected? ==>
        IsFirstMissing(RequiredItems(questoes), respostas, outcome.missing) &&
        store.value == old(store.value) && store.writes == old(store.writes)
      ensures outcome.Saved? ==>
        outcome.record == NewDraft(stamp, formId, respostas, fotos, createdAt, formTitle) &&
        outcome.record.status == Draft &&
        store.value == Some(LoadAll(old(store.value)) + [outcome.record]) &&
        store.writes == old(store.writes) + 1
    {
      var questoesObrigatorias := RequiredItems(questoes);
      var missing := FirstMissing(questoesObrigatorias, respostas);
      if missing.Some? {
        return Rejected(missing.value);
      }
      var newResponse := NewDraft(stamp, formId, respostas, fotos, createdAt, formTitle);
      var existing := store.GetItem();
      var existingResponses := LoadAll(existing);
      existingResponses := existingResponses + [newResponse];
      store.SetItem(existingResponses);
      outcome := Saved(newResponse);
    }
  }
}
