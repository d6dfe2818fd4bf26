/**
 * The new-topic form of the forum (components/admin/ForumNewTopic.tsx): tag
 * editing, the field checks before submission and the errors the form shows
 * after the server's reply.
 */
module ForumNewTopic {
  import opened Wrappers
  import opened JsText
  import opened Json
  import opened Collections
  import opened ErrorUtils

  const MaxTags := 5

  /** The predefined tags, in display order. */
  const Predefined: seq<string> := [
    "екзамени", "налаштування", "користувачі", "імпорт", "звіти", "аналітика",
    "модулі", "групи", "мотивація", "активність", "помилка", "питання"]

  /** `tag.toLowerCase().trim()` */
  function NormalizeTag(tag: string): string
  {
    Trim(ToLower(tag))
  }

  /** A tag is added when it is non-blank, new and there is room for it. */
  predicate Accepts(tags: seq<string>, normalized: string)
  {
    normalized != "" && normalized !in tags && |tags| < MaxTags
  }

  const TitleRequired := "Заголовок є обов'язковим"
  const TitleTooShort := "Заголовок має містити принаймні 10 символів"
  const CategoryRequired := "Оберіть категорію"
  const ContentRequired := "Опис є обов'язковим"
  const ContentTooShort := "Опис має містити принаймні 20 символів"

  /** The field checks run before anything is sent; lengths are those of the untrimmed text. */
  function Validate(title: string, category: string, content: string): (errors: map<string, Json>)
    ensures "title" in errors <==> Trim(title) == "" || |title| < 10
    ensures "title" in errors ==> errors["title"] == JStr(if Trim(title) == "" then TitleRequired else TitleTooShort)
    ensures "category" in errors <==> category == ""
    ensures "category" in errors ==> errors["category"] == JStr(CategoryRequired)
    ensures "content" in errors <==> Trim(content) == "" || |content| < 20
    ensures "content" in errors ==> errors["content"] == JStr(if Trim(content) == "" then ContentRequired else ContentTooShort)
    ensures forall k :: k in errors ==> k in {"title", "category", "content"}
  {
    var e1: map<string, Json> :=
      if Trim(title) == "" then map["title" := JStr(TitleRequired)]
      else if |title| < 10 then map["title" := JStr(TitleTooShort)]
      else map[];
    var e2 := if category == "" then e1["category" := JStr(CategoryRequired)] else e1;
    if Trim(content) == "" then e2["content" := JStr(ContentRequired)]
    else if |content| < 20 then e2["content" := JStr(ContentTooShort)]
    else e2
  }

  /** The fields of the server's validation errors whose message list is non-empty, each with its first message. */
  function FirstMessages(fields: map<string, Json>): (r: map<string, Json>)
    ensures forall k :: k in r <==> k in fields && IsNonEmptyList(fields[k])
    ensures forall k :: k in fields && IsNonEmptyList(fields[k]) ==> r[k] == fields[k].items[0]
  {
    map k | k in fields && IsNonEmptyList(fields[k]) :: fields[k].items[0]
  }

  /** The `for … of Object.entries(…)` loop that fills the form's errors. */
  method CollectFirstMessages(fields: map<string, Json>) returns (errors: map<string, Json>)
    ensures errors == FirstMessages(fields)
  {
    errors := map[];
    var todo := fields.Keys;
    while todo != {}
      invariant todo <= fields.Keys
      invariant forall k :: k in errors <==> k in fields && k !in todo && IsNonEmptyList(fields[k])
      invariant forall k :: k in errors ==> errors[k] == fields[k].items[0]
      decreases todo
    {
      var field :| field in todo;
      var messages := fields[field];
      if messages.JArr? && |messages.items| > 0 {
        errors := errors[field := messages.items[0]];
      }
      todo := todo - {field};
    }
  }

  /** What `forumService.createTopic` does: resolve with the new topic, or reject with what was thrown. */
  datatype CreateReply =
    | Created(id: int)
    | Rejected(error: Thrown)

  const CreatedToast := "Тема успішно створена!"
  const CheckFieldsToast := "Перевірте помилки валідації"
  const CreateFailed := "Не вдалося створити тему"

  /** `error.message || 'Не вдалося створити тему'` */
  function RejectionMessage(error: Thrown): (r: string)
    ensures r != ""
    ensures error.ObjectValue? && error.message != "" ==> r == error.message
  {
    if error.ObjectValue? && error.message != "" then error.message else CreateFailed
  }

  /**
   * The `validationErrors` property of a rejection. `createTopic` has no catch,
   * so it rejects with the Axios error itself, to which the response
   * interceptor only adds `isAuthError`; a `ValidationError` keeps its map as
   * `errors`. No value `createTopic` can throw has this property.
   */
  const ValidationErrorsProperty: Option<Json> := None

  /** The catch branch as written: the form's field errors, when `error.validationErrors` is truthy. */
  function AsWrittenFieldErrors(error: Thrown): (r: Option<map<string, Json>>)
    ensures r.Some? ==> ValidationErrorsProperty.Some?
  {
    if ValidationErrorsProperty.Some? && IsTruthy(ValidationErrorsProperty.value) then
      Some(FirstMessages(if ValidationErrorsProperty.value.JObj? then ValidationErrorsProperty.value.fields else map[]))
    else None
  }

  /** Each message as a JSON string. */
  function Strs(messages: seq<string>): (r: seq<Json>)
    ensures |r| == |messages|
    ensures forall i :: 0 <= i < |messages| ==> r[i] == JStr(messages[i])
  {
    seq(|messages|, i requires 0 <= i < |messages| => JStr(messages[i]))
  }

  /** A Laravel validation map as the JSON object it arrives as: each field with its list of messages. */
  function ErrorFields(errors: ValidationErrors): (r: map<string, Json>)
    ensures forall k :: k in r <==> Lookup(errors, k).Some?
    ensures forall k :: k in r ==> r[k] == JArr(Strs(Lookup(errors, k).value))
  {
    map k | k in (set i | 0 <= i < |errors| :: errors[i].field) :: JArr(Strs(Lookup(errors, k).value))
  }

  /**
   * The catch branch corrected: the field errors are read with
   * `extractValidationErrors`, and each field shows the message `getFirstError` gives.
   */
  function RejectionFieldErrors(error: Thrown): (r: Option<map<string, Json>>)
    ensures r.Some? <==> IsValidationError(error)
    ensures r.Some? ==> forall k :: k in r.value <==> GetFirstError(ExtractValidationErrors(error), k).Some?
    ensures r.Some? ==> forall k :: k in r.value ==> r.value[k] == JStr(GetFirstError(ExtractValidationErrors(error), k).value)
  {
    match ExtractValidationErrors(error)
    case None => None
    case Some(errors) => Some(FirstMessages(ErrorFields(errors)))
  }

  /** As written, no rejection shows field errors; corrected, a 422 reply with a title error shows it. */
  lemma FieldErrorsLostAsWritten()
    ensures var error := ObjectValue(HasResponse(Response(422, Some(ResponseData(None, Some([FieldErrors("title", ["taken"])]))))),
                                     true, "Request failed with status code 422", None);
      && AsWrittenFieldErrors(error).None?
      && RejectionFieldErrors(error) == Some(map["title" := JStr("taken")])
  {
    var errors := [FieldErrors("title", ["taken"])];
    var error := ObjectValue(HasResponse(Response(422, Some(ResponseData(None, Some(errors))))),
                             true, "Request failed with status code 422", None);
    var r := RejectionFieldErrors(error).value;
    assert Lookup(errors, "title") == Some(["taken"]);
    assert "title" in r;
    assert forall k :: k in r ==> k == "title";
    assert r == map["title" := JStr("taken")];
  }

  datatype TopicRequest = TopicRequest(title: string, content: string, category: string, tags: seq<string>)

  /** `suggestedTags.filter(t => !tags.includes(t))` */
  function Unchosen(options: seq<string>, tags: seq<string>): (r: seq<string>)
    ensures |r| <= |options|
    ensures forall t :: t in r <==> t in options && t !in tags
  {
    if |options| == 0 then []
    else (if options[0] in tags then [] else [options[0]]) + Unchosen(options[1..], tags)
  }

  /** One option stays a suggestion exactly when it is not chosen. */
  lemma UnchosenOfOne(t: string, tags: seq<string>)
    ensures Unchosen([t], tags) == if t in tags then [] else [t]
  {
    assert [t][1..] == [];
  }

  /**
   * The filter of a concatenation is the concatenation of the filters; with
   * `UnchosenOfOne`, the suggestions keep the predefined order.
   */
  lemma {:induction false} UnchosenAppend(a: seq<string>, b: seq<string>, tags: seq<string>)
    ensures Unchosen(a + b, tags) == Unchosen(a, tags) + Unchosen(b, tags)
    decreases |a|
  {
    if |a| == 0 {
      assert a + b == b;
    } else {
      var c := a + b;
      var head := if a[0] in tags then [] else [a[0]];
      assert c[0] == a[0] && c[1..] == a[1..] + b;
      assert Unchosen(c, tags) == head + Unchosen(c[1..], tags);
      assert Unchosen(a, tags) == head + Unchosen(a[1..], tags);
      UnchosenAppend(a[1..], b, tags);
      AppendAssoc(head, Unchosen(a[1..], tags), Unchosen(b, tags));
    }
  }

  /** The options that are already chosen, in option order. */
  function Chosen(options: seq<string>, tags: seq<string>): (r: seq<string>)
    ensures forall t :: t in r ==> t in tags
    ensures NoDups(options) ==> NoDups(r) && forall t :: t in r ==> t in options
    ensures |r| + |Unchosen(options, tags)| == |options|
  {
    if |options| == 0 then []
    else
      var rest := Chosen(options[1..], tags);
      assert NoDups(options) ==> NoDups(options[1..]) && options[0] !in options[1..];
      (if options[0] in tags then [options[0]] else []) + rest
  }

  /** The suggested tags: the unchosen predefined ones, at most ten. */
  function SuggestedTags(tags: seq<string>): (r: seq<string>)
    ensures |r| <= 10 && |r| <= |Unchosen(Predefined, tags)|
    ensures |r| == 10 || |r| == |Unchosen(Predefined, tags)|
    ensures forall t :: t in r ==> t in Predefined && t !in tags
    ensures r == Unchosen(Predefined, tags)[..|r|]
  {
    var candidates := Unchosen(Predefined, tags);
    if |candidates| <= 10 then candidates else candidates[..10]
  }

  /** With at most five tags chosen, at least seven suggestions remain. */
  lemma {:induction false} EnoughSuggestions(tags: seq<string>)
    requires NoDups(tags) && |tags| <= MaxTags
    ensures |SuggestedTags(tags)| >= 7
  {
    PredefinedDistinct();
    var chosen := Chosen(Predefined, tags);
    SubListBound(chosen, tags);
    assert |Unchosen(Predefined, tags)| >= 7;
  }

  lemma PredefinedDistinct()
    ensures NoDups(Predefined)
  {
  }

  /** The form state: the chosen tags, the tag field and the errors on display. */
  class NewTopicForm {
    var title: string
    var category: string
    var content: string
    var tags: seq<string>
    var tagInput: string
    var errors: map<string, Json>

    /** Tags are distinct, non-blank and at most five. */
    predicate Valid()
      reads this
    {
      NoDups(tags) && |tags| <= MaxTags && "" !in tags
    }

    constructor()
      ensures Valid()
      ensures title == "" && category == "" && content == "" && tags == [] && tagInput == "" && errors == map[]
    {
      title, category, content := "", "", "";
      tags, tagInput := [], "";
      errors := map[];
    }

    /** `handleAddTag`: append the normalized tag and clear the field, or change nothing. */
    method AddTag(tag: string)
      requires Valid()
      modifies this
      ensures Valid()
      ensures Accepts(old(tags), NormalizeTag(tag)) ==> tags == old(tags) + [NormalizeTag(tag)] && tagInput == ""
      ensures !Accepts(old(tags), NormalizeTag(tag)) ==> tags == old(tags) && tagInput == old(tagInput)
      ensures title == old(title) && category == old(category) && content == old(content) && errors == old(errors)
    {
      var normalized := NormalizeTag(tag);
      if normalized != "" && normalized !in tags && |tags| < MaxTags {
        tags := tags + [normalized];
        tagInput := "";
      }
    }

    /** `handleRemoveTag`: drop that tag, keep the others in order. */
    method RemoveTag(tag: string)
      requires Valid()
      modifies this
      ensures Valid()
      ensures tags == Without(old(tags), tag)
      ensures tagInput == old(tagInput) && errors == old(errors)
      ensures title == old(title) && category == old(category) && content == old(content)
    {
      tags := Without(tags, tag);
    }

    /**
     * `handleSubmit`: with a field error nothing is sent and the errors are shown;
     * otherwise the errors are cleared and the topic is sent. A created topic
     * yields its id; a rejection that carries validation errors shows each
     * field's first message, any other rejection its message in a toast.
     */
    method Submit(reply: CreateReply) returns (sent: Option<TopicRequest>, created: Option<int>, toast: Option<string>)
      requires Valid()
      modifies this
      ensures Valid()
      ensures tags == old(tags) && tagInput == old(tagInput)
      ensures title == old(title) && category == old(category) && content == old(content)
      ensures var local := Validate(old(title), old(category), old(content));
        if |local| > 0 then sent.None? && created.None? && toast.None? && errors == local
        else
          && sent == Some(TopicRequest(title, content, category, tags))
          && (reply.Created? ==> created == Some(reply.id) && errors == map[] && toast == Some(CreatedToast))
          && (reply.Rejected? ==> created.None?)
          && (reply.Rejected? && RejectionFieldErrors(reply.error).Some? ==>
                errors == RejectionFieldErrors(reply.error).value && toast == Some(CheckFieldsToast))
          && (reply.Rejected? && RejectionFieldErrors(reply.error).None? ==>
                errors == map[] && toast == Some(RejectionMessage(reply.error)))
    {
      var local := Validate(title, category, content);
      if |local| > 0 {
        errors := local;
        return None, None, None;
      }
      errors := map[];
      sent := Some(TopicRequest(title, content, category, tags));
      created := None;
      match reply {
        case Created(id) =>
          created := Some(id);
          toast := Some(CreatedToast);
        case Rejected(error) =>
          var validationErrors := ExtractValidationErrors(error);
          if validationErrors.Some? {
            errors := CollectFirstMessages(ErrorFields(validationErrors.value));
            toast := Some(CheckFieldsToast);
          } else {
            toast := Some(RejectionMessage(error));
          }
      }
    }
  }

  /** A successful add makes the tag present; a removal makes it absent. */
  lemma AddThenRemove(tags: seq<string>, tag: string)
    requires NoDups(tags) && Accepts(tags, NormalizeTag(tag))
    ensures Without(tags + [NormalizeTag(tag)], NormalizeTag(tag)) == tags
  {
    WithoutAppendAbsent(tags, NormalizeTag(tag));
  }

  lemma {:induction false} WithoutAppendAbsent(s: seq<string>, x: string)
    requires x !in s
    ensures Without(s + [x], x) == s
    decreases |s|
  {
    if |s| == 0 {
      assert [x][1..] == [];
    } else {
      assert (s + [x])[1..] == s[1..] + [x];
      WithoutAppendAbsent(s[1..], x);
    }
  }
}
