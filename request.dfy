/** plenum/common/messages/request.py: request metadata and the Request
    message's binding to it. */
module Request {
  import opened Wrappers
  import opened Wire
  import opened MessageBase
  import MessageBaseProps
  import opened Classes

  const RequestMetadataCls: MsgClass := Record("RequestMetadata",
    [ Triple("frm", "REQUEST_FRM", Field(NonEmptyStringField)),
      Triple("reqId", "REQUEST_ID", Field(NonNegativeNumberField)) ],
    ["frm", "reqId"])

  /** `Request`: a Message with RequestMetadata as its metadata class. */
  const RequestDecl: MessageDecl :=
    MessageDecl(MessageSubclass("Request", None, None, None), None, Some(RequestMetadataCls))

  /** `RequestMetadata(frm, reqId)`. */
  function NewRequestMetadata(frm: Value, reqId: Value): (r: Instance)
    ensures r.cls == RequestMetadataCls
    ensures GetAttr(r, "frm") == Some(frm) && GetAttr(r, "reqId") == Some(reqId)
  {
    ConstructStores(RequestMetadataCls, [frm, reqId]);
    Construct(RequestMetadataCls, [frm, reqId])
  }

  /** Both metadata fields are required, `frm` under REQUEST_FRM and
      `reqId` under REQUEST_ID; both default to None. */
  lemma RequestMetadataTable()
    ensures ValidatorSchema(RequestMetadataCls).Success?
    ensures RequiredNames(ValidatorSchema(RequestMetadataCls).value) == {"REQUEST_FRM", "REQUEST_ID"}
    ensures ValidatorSchema(RequestMetadataCls).value["REQUEST_FRM"].fieldType == NonEmptyStringField
    ensures ValidatorSchema(RequestMetadataCls).value["REQUEST_ID"].fieldType == NonNegativeNumberField
    ensures GetAttr(NewInstance(RequestMetadataCls), "frm") == Some(Null)
    ensures GetAttr(NewInstance(RequestMetadataCls), "reqId") == Some(Null)
    ensures RequestDecl.metadataCls == Some(RequestMetadataCls)
  {
    var s := RequestMetadataCls.schema;
    RequiredWiresAreRequired(RequestMetadataCls);
    assert s[0].wire == "REQUEST_FRM" && s[1].wire == "REQUEST_ID";
    assert LastWithWire(s, "REQUEST_FRM", 0) && LastWithWire(s, "REQUEST_ID", 1);
    MessageBaseProps.ValidatorSchemaShape(RequestMetadataCls);
  }
}
