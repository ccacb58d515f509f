/**
  `ApiResponse`: the response record the service returns, its Lombok builder,
  and the two static factories `success` and `error`.
*/
module ApiResponses {
  import opened Base

  /**
    A Java object placed in `data`, by its rendered text. The relay core only
    ever passes null there.
  */
  datatype Object = Object(text: string)

  datatype ApiResponse = ApiResponse(
    success: Option<bool>,
    message: Option<string>,
    statusCode: Option<Int32>,
    data: Option<Object>,
    errors: Option<seq<Option<string>>>)

  /**
    The generated builder: each setter records one field, `Build` hands every
    field to the all-args constructor; a field never set stays null.
  */
  datatype ApiResponseBuilder = ApiResponseBuilder(
    success: Option<bool>,
    message: Option<string>,
    statusCode: Option<Int32>,
    data: Option<Object>,
    errors: Option<seq<Option<string>>>)
  {
    /** `success(v)`: sets that field and keeps the other four. */
    function WithSuccess(v: Option<bool>): (b: ApiResponseBuilder)
      ensures b.success == v
      ensures b.message == message && b.statusCode == statusCode && b.data == data && b.errors == errors
    {
      this.(success := v)
    }

    /** `message(v)`: sets that field and keeps the other four. */
    function WithMessage(v: Option<string>): (b: ApiResponseBuilder)
      ensures b.message == v
      ensures b.success == success && b.statusCode == statusCode && b.data == data && b.errors == errors
    {
      this.(message := v)
    }

    /** `statusCode(v)`: sets that field and keeps the other four. */
    function WithStatusCode(v: Option<Int32>): (b: ApiResponseBuilder)
      ensures b.statusCode == v
      ensures b.success == success && b.message == message && b.data == data && b.errors == errors
    {
      this.(statusCode := v)
    }

    /** `data(v)`: sets that field and keeps the other four. */
    function WithData(v: Option<Object>): (b: ApiResponseBuilder)
      ensures b.data == v
      ensures b.success == success && b.message == message && b.statusCode == statusCode && b.errors == errors
    {
      this.(data := v)
    }

    /** `errors(v)`: sets that field and keeps the other four. */
    function WithErrors(v: Option<seq<Option<string>>>): (b: ApiResponseBuilder)
      ensures b.errors == v
      ensures b.success == success && b.message == message && b.statusCode == statusCode && b.data == data
    {
      this.(errors := v)
    }

    /** `build()`: every recorded field goes to the response unchanged. */
    function Build(): (r: ApiResponse)
      ensures r.success == success && r.message == message && r.statusCode == statusCode
      ensures r.data == data && r.errors == errors
    {
      ApiResponse(success, message, statusCode, data, errors)
    }
  }

  /** `ApiResponse.builder()`: nothing set yet. */
  function NewBuilder(): (b: ApiResponseBuilder)
    ensures b.success == None && b.message == None && b.statusCode == None
    ensures b.data == None && b.errors == None
  {
    ApiResponseBuilder(None, None, None, None, None)
  }

  /** The all-args constructor keeps each argument in its own field. */
  lemma AllArgsConstructor(success: Option<bool>, message: Option<string>, statusCode: Option<Int32>,
                              data: Option<Object>, errors: Option<seq<Option<string>>>)
    ensures var r := ApiResponse(success, message, statusCode, data, errors);
      && r.success == success && r.message == message && r.statusCode == statusCode
      && r.data == data && r.errors == errors
  {
  }

  /** `ApiResponse.success(message, data)`. */
  function Success(message: Option<string>, data: Option<Object>): (r: ApiResponse)
    ensures r.success == Some(true) && r.statusCode == Some(200)
    ensures r.message == message && r.data == data
    ensures r.errors == None
  {
    NewBuilder()
      .WithSuccess(Some(true))
      .WithMessage(message)
      .WithStatusCode(Some(200))
      .WithData(data)
      .Build()
  }

  /** `ApiResponse.error(message, errors)`. */
  function Error(message: Option<string>, errors: Option<seq<Option<string>>>): (r: ApiResponse)
    ensures r.success == Some(false) && r.statusCode == Some(400)
    ensures r.message == message && r.errors == errors
    ensures r.data == None
  {
    NewBuilder()
      .WithSuccess(Some(false))
      .WithMessage(message)
      .WithStatusCode(Some(400))
      .WithErrors(errors)
      .Build()
  }

  /** A response built by either factory has status 200 exactly when it reports success. */
  lemma FactoryStatusMatchesSuccess(message: Option<string>, data: Option<Object>,
                                       errors: Option<seq<Option<string>>>)
    ensures var s := Success(message, data);
      s.statusCode == Some(200) <==> s.success == Some(true)
    ensures var e := Error(message, errors);
      e.statusCode == Some(200) <==> e.success == Some(true)
  {
  }
}
