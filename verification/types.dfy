/** The records of the ledger snapshot (the AppData shape) and the request
    payloads the views hand to the store. Money is exact (`real`), times are
    millisecond timestamps (`int`), identifiers are strings. */
module Types {
  import Seqs

  type Id = string

  datatype Customer = Customer(id: Id, name: string, phone: string, createdAt: int)

  datatype Product = Product(id: Id, name: string, category: string, price: real,
                             stock: int, minStock: int)

  /** One scheduled payment of a sale; `paidAt` is absent while unpaid. */
  datatype Installment = Installment(id: Id, saleId: Id, number: int, amount: real,
                                     dueDate: int, paidAt: Seqs.Option<int>)

  datatype PaymentMethod = Pix | CreditCard | DebitCard | Cash

  /** One cart line, with the unit price captured when it was added. */
  datatype SaleItem = SaleItem(productId: Id, quantity: int, unitPrice: real)

  datatype Sale = Sale(id: Id, customerId: Id, items: seq<SaleItem>, total: real,
                       paymentMethod: PaymentMethod, installments: int, createdAt: int)

  datatype Theme = Light | Dark

  datatype Profile = Profile(name: string, businessName: string, currency: string,
                             theme: Seqs.Option<Theme>)

  /** The whole state the store replaces on every update. */
  datatype Snapshot = Snapshot(customers: seq<Customer>, products: seq<Product>,
                               sales: seq<Sale>, installments: seq<Installment>,
                               profile: Profile)

  /** The payload of addCustomer: a customer without id and createdAt. */
  datatype CustomerData = CustomerData(name: string, phone: string)

  /** The payload of addProduct: a product without id. */
  datatype ProductData = ProductData(name: string, category: string, price: real,
                                     stock: int, minStock: int)

  /** The payload of createSale: a sale without id and createdAt. */
  datatype SaleRequest = SaleRequest(customerId: Id, items: seq<SaleItem>, total: real,
                                     paymentMethod: PaymentMethod, installments: int)

  /** The three payment-risk labels, from best to worst. */
  datatype Status = EmDia | Pendente | Devedor
  {
    /** The text the store returns and the views display. */
    function Label(): string
    {
      match this
      case EmDia => "em dia"
      case Pendente => "pendente"
      case Devedor => "devedor"
    }

    function Rank(): nat
    {
      match this
      case EmDia => 0
      case Pendente => 1
      case Devedor => 2
    }
  }

  const InitialSnapshot := Snapshot([], [], [], [],
    Profile("Consultora Bella", "Minha Loja de Beleza", "BRL", Seqs.None))

  /** JavaScript truthiness of `ins.paidAt`: absent and 0 both read as unpaid. */
  predicate IsPaid(ins: Installment)
  {
    ins.paidAt.Some? && ins.paidAt.value != 0
  }

  /** The low-stock rule shared by the dashboard and the inventory list. */
  predicate IsLowStock(p: Product)
  {
    p.stock <= p.minStock
  }

  /** All product ids differ (they come from crypto.randomUUID). */
  predicate DistinctProductIds(products: seq<Product>)
  {
    forall i, j :: 0 <= i < j < |products| ==> products[i].id != products[j].id
  }
}
