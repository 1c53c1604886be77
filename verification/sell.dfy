/**
 * The create-listing form: per-field updates (a new category clears the
 * brand and reloads the brand list), the validity rule, the submitted
 * multipart payload and the fallback reference data.
 */
module Sell {
  import opened Wrappers
  import Text

  /** The `name` attributes of the seven form inputs. */
  datatype Field = Category | Brand | Model | Price | Description | City | Phone

  /** `formData`: every input holds a string (selects hold the chosen id as a string). */
  datatype FormData = FormData(
    category: string, brand: string, model: string, price: string,
    description: string, city: string, phone: string)

  const EmptyForm := FormData("", "", "", "", "", "", "")

  function Get(f: FormData, field: Field): string
  {
    match field
    case Category => f.category
    case Brand => f.brand
    case Model => f.model
    case Price => f.price
    case Description => f.description
    case City => f.city
    case Phone => f.phone
  }

  /** `{ ...prev, [name]: value }`. */
  function Set(f: FormData, field: Field, value: string): FormData
  {
    match field
    case Category => f.(category := value)
    case Brand => f.(brand := value)
    case Model => f.(model := value)
    case Price => f.(price := value)
    case Description => f.(description := value)
    case City => f.(city := value)
    case Phone => f.(phone := value)
  }

  /** The form after one `handleInputChange`: the field takes the value, and a new category clears the brand. */
  function InputChange(f: FormData, field: Field, value: string): (r: FormData)
    ensures Get(r, field) == value
    ensures field == Category ==> r.brand == ""
  {
    if field == Category then Set(f, Category, value).(brand := "") else Set(f, field, value)
  }

  /**
   * Editing a field sets it and leaves every other field as it was, except
   * that editing the category also empties the brand.
   */
  lemma InputChangeFrame(f: FormData, field: Field, value: string, other: Field)
    ensures Get(InputChange(f, field, value), field) == value
    ensures other != field && !(field == Category && other == Brand) ==>
      Get(InputChange(f, field, value), other) == Get(f, other)
    ensures field == Category ==> Get(InputChange(f, field, value), Brand) == ""
  {
  }

  /** The brand list a change of category asks for. */
  datatype BrandQuery = AllBrands | BrandsOfCategory(categoryValue: string)

  /** Only a category change asks for brands: scoped to a chosen category, unscoped for the empty choice. */
  function BrandQueryFor(field: Field, value: string): (q: Option<BrandQuery>)
    ensures q.Some? <==> field == Category
    ensures q == Some(AllBrands) <==> field == Category && value == ""
    ensures q == Some(BrandsOfCategory(value)) <==> field == Category && value != ""
  {
    if field != Category then None
    else if value != "" then Some(BrandsOfCategory(value))
    else Some(AllBrands)
  }

  /** A chosen photo file. */
  datatype Photo = Photo(name: string)

  /** `isFormValid`: the seven fields are filled in, a photo is chosen and the reference data has loaded. */
  function IsFormValid(f: FormData, photo: Option<Photo>, dataLoading: bool): (r: bool)
    ensures r ==> photo.Some? && !dataLoading
  {
    && f.category != "" && f.brand != "" && f.model != "" && f.price != ""
    && f.description != "" && f.city != "" && f.phone != ""
    && photo.Some? && !dataLoading
  }

  /** The submit button is disabled while the form is invalid or a submission is running. */
  function SubmitDisabled(f: FormData, photo: Option<Photo>, dataLoading: bool, loading: bool): (r: bool)
    ensures loading || dataLoading || photo.None? ==> r
  {
    !IsFormValid(f, photo, dataLoading) || loading
  }

  /** The form is valid exactly when every field is non-empty, a photo is chosen and loading is over. */
  lemma FormValidIff(f: FormData, photo: Option<Photo>, dataLoading: bool)
    ensures IsFormValid(f, photo, dataLoading) <==>
      (forall field: Field :: Get(f, field) != "") && photo.Some? && !dataLoading
  {
    if (forall field: Field :: Get(f, field) != "") {
      assert Get(f, Category) != "" && Get(f, Brand) != "" && Get(f, Model) != "";
      assert Get(f, Price) != "" && Get(f, Description) != "" && Get(f, City) != "";
      assert Get(f, Phone) != "";
    }
  }

  /** One part of the multipart payload. */
  datatype Entry = TextPart(key: string, text: string) | FilePart(key: string, file: Photo)

  /** The keys of the text parts, in the order they are appended. */
  const TextKeys := ["user_id", "category_id", "brand_id", "model", "price", "description", "city", "contact_phone"]

  /** The `FormData` sent on submit: the user id and the seven fields, then the photo when one is chosen. */
  function Payload(userId: int, f: FormData, photo: Option<Photo>): (r: seq<Entry>)
    ensures |r| == if photo.Some? then 9 else 8
    ensures forall k :: 0 <= k < 8 ==> r[k].TextPart? && r[k].key == TextKeys[k]
    ensures photo.Some? ==> r[8] == FilePart("photo", photo.value)
  {
    [ TextPart("user_id", Text.IntToDecimal(userId)), TextPart("category_id", f.category),
      TextPart("brand_id", f.brand), TextPart("model", f.model), TextPart("price", f.price),
      TextPart("description", f.description), TextPart("city", f.city),
      TextPart("contact_phone", f.phone) ]
    + (if photo.Some? then [FilePart("photo", photo.value)] else [])
  }

  /** Reads a payload back: the user id, the form and the photo, when the parts have the expected shape. */
  function DecodePayload(entries: seq<Entry>): Option<(int, FormData, Option<Photo>)>
  {
    if (|entries| == 8 || |entries| == 9)
      && (forall k :: 0 <= k < 8 ==> entries[k].TextPart? && entries[k].key == TextKeys[k])
      && (|entries| == 9 ==> entries[8].FilePart? && entries[8].key == "photo")
    then
      Some((Text.IntValue(entries[0].text),
            FormData(entries[1].text, entries[2].text, entries[3].text, entries[4].text,
                     entries[5].text, entries[6].text, entries[7].text),
            if |entries| == 9 then Some(entries[8].file) else None))
    else None
  }

  /** The payload loses nothing: it reads back to the user id, the form and the photo it was built from. */
  lemma PayloadRoundTrip(userId: int, f: FormData, photo: Option<Photo>)
    ensures DecodePayload(Payload(userId, f, photo)) == Some((userId, f, photo))
  {
    Text.IntRoundTrip(userId);
  }

  /** A valid form sends eight filled-in text parts and exactly one photo. */
  lemma ValidFormSendsEverything(userId: int, f: FormData, photo: Option<Photo>, dataLoading: bool)
    requires IsFormValid(f, photo, dataLoading)
    ensures var p := Payload(userId, f, photo);
      && |p| == 9 && p[8] == FilePart("photo", photo.value)
      && (forall k :: 0 <= k < 8 ==> p[k].TextPart? && p[k].key == TextKeys[k] && p[k].text != "")
  {
  }

  /**
   * An enabled submit button means no submission is running and the form is
   * complete, so the payload it sends has eight filled-in text parts and the photo.
   */
  lemma EnabledSubmitSendsCompleteForm(userId: int, f: FormData, photo: Option<Photo>, dataLoading: bool, loading: bool)
    requires !SubmitDisabled(f, photo, dataLoading, loading)
    ensures !loading && photo.Some?
    ensures var p := Payload(userId, f, photo);
      |p| == 9 && forall k :: 0 <= k < 8 ==> p[k].text != ""
  {
    ValidFormSendsEverything(userId, f, photo, dataLoading);
  }

  /** The form left behind by a successful submission cannot be submitted again as it is. */
  lemma ResetFormDisablesSubmit(dataLoading: bool, loading: bool)
    ensures SubmitDisabled(EmptyForm, None, dataLoading, loading)
  {
  }

  /** Reference data: categories and brands. */
  datatype CategoryItem = CategoryItem(id: int, nameRu: string, nameUz: string)
  datatype BrandItem = BrandItem(id: int, name: string)

  const FallbackCategories: seq<CategoryItem> := [
    CategoryItem(1, "Смартфоны", "Smartfonlar"),
    CategoryItem(2, "Планшеты", "Planshetlar")
  ]

  const FallbackBrands: seq<BrandItem> := [
    BrandItem(1, "Apple"), BrandItem(2, "Samsung"), BrandItem(3, "Xiaomi"),
    BrandItem(4, "Huawei"), BrandItem(5, "OPPO"), BrandItem(6, "Vivo")
  ]

  /** The fallback holds two categories and six brands, numbered from 1. */
  lemma FallbackShape()
    ensures |FallbackCategories| == 2 && |FallbackBrands| == 6
    ensures forall k :: 0 <= k < |FallbackCategories| ==> FallbackCategories[k].id == k + 1
    ensures forall k :: 0 <= k < |FallbackBrands| ==> FallbackBrands[k].id == k + 1
  {
  }

  /** The alert shown by a submission. */
  datatype SellAlert = UserError | CreateSuccess | CreateError

  /** The component state of the form page. */
  class SellPage {
    var formData: FormData
    var photo: Option<Photo>
    var loading: bool
    var categories: seq<CategoryItem>
    var brands: seq<BrandItem>
    var dataLoading: bool

    constructor ()
      ensures formData == EmptyForm && photo.None? && !loading
      ensures categories == [] && brands == [] && dataLoading
    {
      formData := EmptyForm;
      photo := None;
      loading := false;
      categories := [];
      brands := [];
      dataLoading := true;
    }

    /**
     * `loadData`: categories and the unscoped brands are fetched together;
     * if either call fails both lists take the fallback. Loading ends either way.
     */
    method LoadData(fetchedCategories: Call<seq<CategoryItem>>, fetchedBrands: Call<seq<BrandItem>>)
      modifies this`categories, this`brands, this`dataLoading
      ensures !dataLoading
      ensures fetchedCategories.Ok? && fetchedBrands.Ok? ==>
        categories == fetchedCategories.value && brands == fetchedBrands.value
      ensures fetchedCategories.Failed? || fetchedBrands.Failed? ==>
        categories == FallbackCategories && brands == FallbackBrands
    {
      if fetchedCategories.Ok? && fetchedBrands.Ok? {
        categories := fetchedCategories.value;
        brands := fetchedBrands.value;
      } else {
        categories := FallbackCategories;
        brands := FallbackBrands;
      }
      dataLoading := false;
    }

    /**
     * `handleInputChange`: updates the form; on a category change also asks
     * for the matching brands, which replace the list only when the call succeeds.
     */
    method HandleInputChange(field: Field, value: string, fetchedBrands: Call<seq<BrandItem>>)
      returns (query: Option<BrandQuery>)
      modifies this`formData, this`brands
      ensures formData == InputChange(old(formData), field, value)
      ensures query == BrandQueryFor(field, value)
      ensures brands == if query.Some? && fetchedBrands.Ok? then fetchedBrands.value else old(brands)
    {
      formData := Set(formData, field, value);
      query := None;
      if field == Category {
        formData := Set(formData, Category, value).(brand := "");
        if value != "" {
          query := Some(BrandsOfCategory(value));
        } else {
          query := Some(AllBrands);
        }
        if fetchedBrands.Ok? {
          brands := fetchedBrands.value;
        }
      }
    }

    /** `handlePhotoChange`: the first chosen file becomes the photo; choosing nothing keeps the old one. */
    method HandlePhotoChange(files: seq<Photo>)
      modifies this`photo
      ensures photo == if |files| > 0 then Some(files[0]) else old(photo)
    {
      if |files| > 0 {
        photo := Some(files[0]);
      }
    }

    /**
     * `handleSubmit`: without a user id (absent or 0) it alerts and sends
     * nothing. Otherwise it sends the payload; success alerts and, once the
     * alert is dismissed, empties the form and the photo; failure alerts and
     * keeps the form. The in-progress flag is clear again once a
     * submission is over.
     */
    method HandleSubmit(userId: Option<int>, created: Call<()>)
      returns (sent: Option<seq<Entry>>, alert: SellAlert)
      modifies this`formData, this`photo, this`loading
      ensures userId.None? || userId.value == 0 ==>
        && sent.None? && alert == UserError
        && formData == old(formData) && photo == old(photo) && loading == old(loading)
      ensures userId.Some? && userId.value != 0 ==> !loading
      ensures userId.Some? && userId.value != 0 ==> sent == Some(Payload(userId.value, old(formData), old(photo)))
      ensures userId.Some? && userId.value != 0 && created.Ok? ==>
        alert == CreateSuccess && formData == EmptyForm && photo.None?
      ensures userId.Some? && userId.value != 0 && created.Failed? ==>
        alert == CreateError && formData == old(formData) && photo == old(photo)
    {
      if userId.None? || userId.value == 0 {
        sent, alert := None, UserError;
        return;
      }
      loading := true;
      sent := Some(Payload(userId.value, formData, photo));
      if created.Ok? {
        alert := CreateSuccess;
        formData := EmptyForm;
        photo := None;
      } else {
        alert := CreateError;
      }
      loading := false;
    }
  }
}
